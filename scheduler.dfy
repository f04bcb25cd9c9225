/** The deployer: which scheduler templates need deploying, and the remote
    calls that deploying a Glue crawler or a CloudWatch Events rule makes. */
module Scheduling {
  import opened Values
  import Templates
  import Casing

  // ---------------------------------------------------------------------
  // Remote calls

  /** An event pattern as handed to `put_rule`: serialised as JSON when it
      is truthy, passed through as it is otherwise. */
  datatype Payload = AsIs(raw: Value) | Json(encoded: Value)

  /** The remote calls the deployer makes, with the arguments that vary. */
  datatype Call =
    | AddPermission(functionName: string, statementId: string)
    | RemoveTargets(rule: string, ids: seq<string>)
    | DeleteRule(name: string)
    | PutRule(name: string, eventPattern: Payload, schedule: Value, description: Value)
    | GetFunction(functionName: string)
    | PutTargets(rule: string, targetId: string, arn: Value, input: Payload)
    | GetDatabase(name: string)
    | CreateDatabase(name: string, databaseDescription: string)
    | DeleteCrawler(name: string)
    | CreateCrawler(name: string, description: Value, role: string, s3TargetPath: Value, schedule: Value, databaseName: string)

  /** How a remote call ended: a response, a ResourceNotFoundException, or
      any other exception. */
  datatype Reply = Answered(response: Value) | NotFound | Failure

  /** The remote services: the reply to a call given every call made
      before it. */
  type Remote = (seq<Call>, Call) -> Reply

  /** The calls a procedure made, in order, and how it ended. */
  datatype Run = Run(outcome: Outcome, calls: seq<Call>)

  /** The exception a failed remote call raises. */
  function Raise(reply: Reply): (e: Error)
    requires !reply.Answered?
    ensures e == RemoteNotFound <==> reply.NotFound?
  {
    if reply.NotFound? then RemoteNotFound else RemoteFailure
  }

  // ---------------------------------------------------------------------
  // put_glue

  function DatabaseName(prefix: string, name: string): string {
    Casing.MakeSnake(prefix) + "_" + Casing.MakeSnake(name)
  }

  function CrawlerName(prefix: string, name: string): string {
    prefix + name + "Crawler"
  }

  /** The keyword arguments of `create_crawler` taken from the spec, read in
      the order Python evaluates them. */
  function CrawlerArguments(spec: Value): (r: Result<(Value, Value, Value)>)
    requires spec.Dict?
    ensures r.Ok? <==> "Description" in spec.fields && "S3TargetPath" in spec.fields && "Schedule" in spec.fields
    ensures r.Ok? ==> r.value == (spec.fields["Description"], spec.fields["S3TargetPath"], spec.fields["Schedule"])
    ensures r.Err? ==> r.error == KeyMissing(
      if "Description" !in spec.fields then "Description"
      else if "S3TargetPath" !in spec.fields then "S3TargetPath" else "Schedule")
  {
    if "Description" !in spec.fields then Err(KeyMissing("Description"))
    else if "S3TargetPath" !in spec.fields then Err(KeyMissing("S3TargetPath"))
    else if "Schedule" !in spec.fields then Err(KeyMissing("Schedule"))
    else Ok((spec.fields["Description"], spec.fields["S3TargetPath"], spec.fields["Schedule"]))
  }

  /** `put_glue`: create the database when probing for it fails, delete the
      crawler ignoring any failure, then create the crawler. */
  function GlueRun(prefix: string, role: string, spec: Value, remote: Remote, history: seq<Call>): Run {
    match Lookup(spec, "name")
    case Err(e) => Run(Raised(e), [])
    case Ok(nameValue) =>
      if !nameValue.Str? then Run(Raised(TypeMismatch), [])
      else
        var db := DatabaseName(prefix, nameValue.s);
        var crawler := CrawlerName(prefix, nameValue.s);
        var probe := [GetDatabase(db)];
        var create := CreateDatabase(db, "Database");
        var found := remote(history, GetDatabase(db)).Answered?;
        var created := remote(history + probe, create);
        if !found && !created.Answered? then Run(Raised(Raise(created)), probe + [create])
        else
          var deleted := (if found then probe else probe + [create]) + [DeleteCrawler(crawler)];
          match CrawlerArguments(spec)
          case Err(e) => Run(Raised(e), deleted)
          case Ok(arguments) =>
            var last := CreateCrawler(crawler, arguments.0, role, arguments.1, arguments.2, db);
            var reply := remote(history + deleted, last);
            Run(if reply.Answered? then Done else Raised(Raise(reply)), deleted + [last])
  }

  /** The database is created exactly when probing for it fails. */
  lemma GlueCreatesDatabaseOnlyWhenMissing(prefix: string, role: string, name: string, spec: Value, remote: Remote, history: seq<Call>)
    requires Lookup(spec, "name") == Ok(Str(name))
    ensures var run := GlueRun(prefix, role, spec, remote, history);
      && run.calls[0] == GetDatabase(DatabaseName(prefix, name))
      && (CreateDatabase(DatabaseName(prefix, name), "Database") in run.calls <==>
            !remote(history, GetDatabase(DatabaseName(prefix, name))).Answered?)
  {
  }

  /** Whatever the remote answers to `delete_crawler` changes nothing. */
  lemma GlueIgnoresDeleteCrawlerReply(prefix: string, role: string, spec: Value, remote: Remote, other: Remote, history: seq<Call>)
    requires forall h: seq<Call>, c: Call :: !c.DeleteCrawler? ==> remote(h, c) == other(h, c)
    ensures GlueRun(prefix, role, spec, remote, history) == GlueRun(prefix, role, spec, other, history)
  {
  }

  /** Once the database exists or was created, the old crawler is deleted
      and the crawler is created under `prefix+name+"Crawler"` over that
      database, with the spec's description, S3 path and schedule; a spec
      missing one of those raises right after the delete. */
  lemma GlueCreatesCrawler(prefix: string, role: string, name: string, spec: Value, remote: Remote, history: seq<Call>)
    requires Lookup(spec, "name") == Ok(Str(name))
    requires var db := DatabaseName(prefix, name);
      remote(history, GetDatabase(db)).Answered? || remote(history + [GetDatabase(db)], CreateDatabase(db, "Database")).Answered?
    ensures var run := GlueRun(prefix, role, spec, remote, history);
      var db := DatabaseName(prefix, name);
      var crawler := prefix + name + "Crawler";
      && DeleteCrawler(crawler) in run.calls
      && (CrawlerArguments(spec).Err? <==> run.calls[|run.calls| - 1] == DeleteCrawler(crawler))
      && (CrawlerArguments(spec).Err? ==> run.outcome == Raised(CrawlerArguments(spec).error))
      && (CrawlerArguments(spec).Ok? ==>
            run.calls[|run.calls| - 1] == CreateCrawler(crawler, spec.fields["Description"], role,
                                                        spec.fields["S3TargetPath"], spec.fields["Schedule"], db))
  {
  }

  /** Database names carry no upper-case letter, whatever the prefix and
      the template name. */
  lemma DatabaseNameIsLowerCase(prefix: string, name: string)
    ensures Casing.HasNoUpper(DatabaseName(prefix, name))
  {
  }

  // ---------------------------------------------------------------------
  // put_cloudwatch_event

  /** `put_cloudwatch_event`: grant the invoke permission (a failure is only
      logged); then either remove the target and the rule, tolerating a
      missing one, or write the rule, resolve the function and attach it as
      the rule's target. */
  function CloudwatchRun(prefix: string, spec: Value, remote: Remote, history: seq<Call>): Run {
    match Lookup(spec, "name")
    case Err(e) => Run(Raised(e), [])
    case Ok(nameValue) =>
      var functionValue := GetOr(spec.fields, "FunctionName", nameValue);
      if !functionValue.Str? || !nameValue.Str? then Run(Raised(TypeMismatch), [])
      else
        var functionName := functionValue.s;
        var key := prefix + functionName;
        var nameKey := prefix + nameValue.s;
        var pattern := GetOr(spec.fields, "EventPattern", Str(""));
        var targetId := key + "-target";
        var permission := [AddPermission(functionName, key + "_Statement")];
        if Truthy(GetOr(spec.fields, "deleted", Bool(false))) then
          var remove := RemoveTargets(key, [targetId]);
          var removed := remote(history + permission, remove);
          if removed.NotFound? then Run(Done, permission + [remove])
          else if removed.Failure? then Run(Raised(RemoteFailure), permission + [remove])
          else
            var dropped := remote(history + permission + [remove], DeleteRule(key));
            Run(if dropped.Failure? then Raised(RemoteFailure) else Done, permission + [remove, DeleteRule(key)])
        else
          var put := PutRule(nameKey, if Truthy(pattern) then Json(pattern) else AsIs(pattern),
                             GetOr(spec.fields, "Schedule", Str("")), GetOr(spec.fields, "Description", Str("")));
          var written := remote(history + permission, put);
          if !written.Answered? then Run(Raised(Raise(written)), permission + [put])
          else
            var found := remote(history + permission + [put], GetFunction(functionName));
            var arn := if found.Answered? then
                         match Lookup(found.response, "Configuration")
                         case Ok(configuration) => Lookup(configuration, "FunctionArn")
                         case Err(e) => Err(e)
                       else Err(RemoteFailure);
            if arn.Err? then Run(Raised(InvalidFunctionName(functionName)), permission + [put, GetFunction(functionName)])
            else
              var attach := PutTargets(nameKey, targetId, arn.value, Json(GetOr(spec.fields, "Input", Dict(map[]))));
              var attached := remote(history + permission + [put, GetFunction(functionName)], attach);
              Run(if attached.Answered? then Done else Raised(Raise(attached)),
                  permission + [put, GetFunction(functionName), attach])
  }

  /** The function name is `FunctionName`, or the template name without
      one; the invoke permission for it is requested first, with statement id
      `prefix+function+"_Statement"`, and a second call always follows. */
  lemma CloudwatchGrantsPermissionFirst(prefix: string, name: string, functionName: string, spec: Value,
                                        remote: Remote, history: seq<Call>)
    requires Lookup(spec, "name") == Ok(Str(name))
    requires GetOr(spec.fields, "FunctionName", Str(name)) == Str(functionName)
    ensures var run := CloudwatchRun(prefix, spec, remote, history);
      && |run.calls| >= 2 && run.calls[0] == AddPermission(functionName, prefix + functionName + "_Statement")
      && ("FunctionName" !in spec.fields ==> run.calls[0] == AddPermission(name, prefix + name + "_Statement"))
  {
  }

  /** Whatever the remote answers to `add_permission` changes nothing. */
  lemma CloudwatchIgnoresPermissionReply(prefix: string, spec: Value, remote: Remote, other: Remote, history: seq<Call>)
    requires forall h: seq<Call>, c: Call :: !c.AddPermission? ==> remote(h, c) == other(h, c)
    ensures CloudwatchRun(prefix, spec, remote, history) == CloudwatchRun(prefix, spec, other, history)
  {
    if Lookup(spec, "name").Ok? {
      var nameValue := Lookup(spec, "name").value;
      var functionValue := GetOr(spec.fields, "FunctionName", nameValue);
      if functionValue.Str? && nameValue.Str? {
        var key := prefix + functionValue.s;
        var permission := [AddPermission(functionValue.s, key + "_Statement")];
        var h := history + permission;
        if Truthy(GetOr(spec.fields, "deleted", Bool(false))) {
          var remove := RemoveTargets(key, [key + "-target"]);
          assert remote(h, remove) == other(h, remove);
          assert remote(h + [remove], DeleteRule(key)) == other(h + [remove], DeleteRule(key));
        } else {
          var pattern := GetOr(spec.fields, "EventPattern", Str(""));
          var put := PutRule(prefix + nameValue.s, if Truthy(pattern) then Json(pattern) else AsIs(pattern),
                             GetOr(spec.fields, "Schedule", Str("")), GetOr(spec.fields, "Description", Str("")));
          assert remote(h, put) == other(h, put);
          var get := GetFunction(functionValue.s);
          assert remote(h + [put], get) == other(h + [put], get);
          forall attach: Call | attach.PutTargets?
            ensures remote(h + [put, get], attach) == other(h + [put, get], attach)
          {
          }
        }
      }
    }
  }

  /** A deleted rule is removed under `prefix+function` (not
      `prefix+name`, the rule the other branch writes), and `put_rule` is
      never called; only an exception other than ResourceNotFound escapes. */
  lemma CloudwatchDeletedBranch(prefix: string, name: string, functionName: string, spec: Value, remote: Remote, history: seq<Call>)
    requires Lookup(spec, "name") == Ok(Str(name))
    requires GetOr(spec.fields, "FunctionName", Str(name)) == Str(functionName)
    requires Truthy(GetOr(spec.fields, "deleted", Bool(false)))
    ensures var run := CloudwatchRun(prefix, spec, remote, history);
      var key := prefix + functionName;
      && (forall c :: c in run.calls ==> !c.PutRule? && !c.PutTargets? && !c.GetFunction?)
      && run.calls[1] == RemoveTargets(key, [key + "-target"])
      && (|run.calls| == 3 <==> remote(history + run.calls[..1], run.calls[1]).Answered?)
      && (|run.calls| == 3 ==> run.calls[2] == DeleteRule(key))
      && (run.outcome.Raised? ==> run.outcome.error == RemoteFailure)
      && var permission := AddPermission(functionName, key + "_Statement");
         var remove := RemoveTargets(key, [key + "-target"]);
         var removed := remote(history + [permission], remove);
         var dropped := remote(history + [permission, remove], DeleteRule(key));
         && (removed.NotFound? ==> run == Run(Done, [permission, remove]))
         && (removed.Failure? ==> run == Run(Raised(RemoteFailure), [permission, remove]))
         && (removed.Answered? ==>
               run == Run(if dropped.Failure? then Raised(RemoteFailure) else Done, [permission, remove, DeleteRule(key)]))
  {
    var key := prefix + functionName;
    var permission := AddPermission(functionName, key + "_Statement");
    var remove := RemoveTargets(key, [key + "-target"]);
    assert history + [permission] + [remove] == history + [permission, remove];
  }

  /** A rule that is not deleted is written under `prefix+name`; its target
      is attached only when the function resolves to an ARN, and otherwise
      the run raises `InvalidFunctionName` right after looking it up. */
  lemma CloudwatchCreateBranch(prefix: string, name: string, functionName: string, spec: Value, remote: Remote, history: seq<Call>)
    requires Lookup(spec, "name") == Ok(Str(name))
    requires GetOr(spec.fields, "FunctionName", Str(name)) == Str(functionName)
    requires !Truthy(GetOr(spec.fields, "deleted", Bool(false)))
    ensures var run := CloudwatchRun(prefix, spec, remote, history);
      && (forall c :: c in run.calls ==> !c.RemoveTargets? && !c.DeleteRule?)
      && run.calls[1].PutRule? && run.calls[1].name == prefix + name
      && var permission := AddPermission(functionName, prefix + functionName + "_Statement");
         var put := run.calls[1];
         var get := GetFunction(functionName);
         var written := remote(history + [permission], put);
         var found := remote(history + [permission, put], get);
         var configuration := if found.Answered? then Lookup(found.response, "Configuration") else Err(RemoteFailure);
         var arn := if configuration.Ok? then Lookup(configuration.value, "FunctionArn") else Err(RemoteFailure);
         && (!written.Answered? ==> run == Run(Raised(Raise(written)), [permission, put]))
         && (written.Answered? && arn.Err? ==>
               run == Run(Raised(InvalidFunctionName(functionName)), [permission, put, get]))
         && (written.Answered? && arn.Ok? ==>
               var attach := PutTargets(prefix + name, prefix + functionName + "-target", arn.value,
                                        Json(GetOr(spec.fields, "Input", Dict(map[]))));
               var attached := remote(history + [permission, put, get], attach);
               run == Run(if attached.Answered? then Done else Raised(Raise(attached)), [permission, put, get, attach]))
  {
    var run := CloudwatchRun(prefix, spec, remote, history);
    var permission := AddPermission(functionName, prefix + functionName + "_Statement");
    var put := run.calls[1];
    assert history + [permission] + [put] == history + [permission, put];
    assert history + [permission] + [put, GetFunction(functionName)] == history + [permission, put, GetFunction(functionName)];
  }

  /** The quirk of the two branches: when `FunctionName` differs from the
      template name, deleting removes a rule other than the one that
      creating wrote. */
  lemma DeleteMissesCreatedRule(prefix: string, name: string, functionName: string, spec: Value, remote: Remote, history: seq<Call>)
    requires Lookup(spec, "name") == Ok(Str(name)) && functionName != name
    requires GetOr(spec.fields, "FunctionName", Str(name)) == Str(functionName)
    ensures var deleting := CloudwatchRun(prefix, spec.(fields := spec.fields["deleted" := Bool(true)]), remote, history);
      var creating := CloudwatchRun(prefix, spec.(fields := spec.fields["deleted" := Bool(false)]), remote, history);
      creating.calls[1].PutRule? && deleting.calls[1].RemoveTargets? && creating.calls[1].name != deleting.calls[1].rule
  {
    var deleting := spec.(fields := spec.fields["deleted" := Bool(true)]);
    var creating := spec.(fields := spec.fields["deleted" := Bool(false)]);
    CloudwatchDeletedBranch(prefix, name, functionName, deleting, remote, history);
    CloudwatchCreateBranch(prefix, name, functionName, creating, remote, history);
    assert (prefix + name)[|prefix|..] == name;
    assert (prefix + functionName)[|prefix|..] == functionName;
  }

  // ---------------------------------------------------------------------
  // _deploy and deploy_all

  /** `_deploy`: the spec is read from the registry by the template's name,
      then the kind picks the procedure. */
  function DeployOne(index: Index, prefix: string, role: string, t: Record, remote: Remote, history: seq<Call>): (r: Run)
    ensures t.name !in index.entries ==> r == Run(Raised(NameNotFound(t.name)), [])
    ensures t.name in index.entries && t.kind == "cloudwatch" ==>
      r == CloudwatchRun(prefix, index.entries[t.name].template.spec, remote, history)
    ensures t.name in index.entries && t.kind == "glue" ==>
      r == GlueRun(prefix, role, index.entries[t.name].template.spec, remote, history)
    ensures t.kind != "cloudwatch" && t.kind != "glue" ==> r.outcome.Raised? && r.calls == []
    ensures t.name in index.entries && t.kind != "cloudwatch" && t.kind != "glue" ==> r == Run(Raised(InvalidKind(t.kind)), [])
  {
    if t.name !in index.entries then Run(Raised(NameNotFound(t.name)), [])
    else
      var spec := index.entries[t.name].template.spec;
      if t.kind == "cloudwatch" then CloudwatchRun(prefix, spec, remote, history)
      else if t.kind == "glue" then GlueRun(prefix, role, spec, remote, history)
      else Run(Raised(InvalidKind(t.kind)), [])
  }

  /** Deploying one template, given the calls made before it. */
  type Deployer = (Record, seq<Call>) -> Run

  function DeployerFor(index: Index, prefix: string, role: string, remote: Remote): Deployer {
    (t: Record, h: seq<Call>) => DeployOne(index, prefix, role, t, remote, h)
  }

  /** `deploy_all`'s loop: each template sees the calls made before it, and
      the first exception ends the loop. */
  function DeployList(deploy: Deployer, ts: seq<Record>, history: seq<Call>): Run
    decreases |ts|
  {
    if ts == [] then Run(Done, [])
    else
      var first := deploy(ts[0], history);
      if first.outcome.Raised? then first
      else
        var rest := DeployList(deploy, ts[1..], history + first.calls);
        Run(rest.outcome, first.calls + rest.calls)
  }

  /** One step of `DeployList` from position `i`. */
  lemma DeployListStep(deploy: Deployer, ts: seq<Record>, i: nat, history: seq<Call>, first: Run)
    requires i < |ts| && deploy(ts[i], history) == first
    ensures first.outcome.Raised? ==> DeployList(deploy, ts[i..], history) == first
    ensures first.outcome.Done? ==>
      var rest := DeployList(deploy, ts[i + 1..], history + first.calls);
      DeployList(deploy, ts[i..], history) == Run(rest.outcome, first.calls + rest.calls)
  {
    assert ts[i..][0] == ts[i] && ts[i..][1..] == ts[i + 1..];
  }

  /** The loop of `deploy_all` keeps `DeployList` of the whole list equal to
      the calls so far followed by `DeployList` of the rest. */
  lemma DeployListAdvance(deploy: Deployer, ts: seq<Record>, i: nat, history: seq<Call>, calls: seq<Call>, more: seq<Call>)
    requires i < |ts| && deploy(ts[i], history + calls) == Run(Done, more)
    requires DeployList(deploy, ts, history).outcome == DeployList(deploy, ts[i..], history + calls).outcome
    requires DeployList(deploy, ts, history).calls == calls + DeployList(deploy, ts[i..], history + calls).calls
    ensures DeployList(deploy, ts, history).outcome == DeployList(deploy, ts[i + 1..], history + (calls + more)).outcome
    ensures DeployList(deploy, ts, history).calls == (calls + more) + DeployList(deploy, ts[i + 1..], history + (calls + more)).calls
  {
    DeployListStep(deploy, ts, i, history + calls, Run(Done, more));
    assert history + calls + more == history + (calls + more);
    var rest := DeployList(deploy, ts[i + 1..], history + (calls + more)).calls;
    assert calls + (more + rest) == (calls + more) + rest;
  }

  /** Deploying `ts[..j]` succeeds with calls `before`, and then `ts[j]`
      raises `error` after making `calls`. */
  predicate StopsAt(deploy: Deployer, ts: seq<Record>, history: seq<Call>,
                    j: nat, before: seq<Call>, error: Error, calls: seq<Call>)
  {
    && j < |ts|
    && DeployList(deploy, ts[..j], history) == Run(Done, before)
    && deploy(ts[j], history + before) == Run(Raised(error), calls)
  }

  /** A failed deployment is the successful deployment of a prefix of the
      list followed by one template that raises: no later template is
      deployed. */
  lemma {:induction false} DeployStopsAtFirstError(deploy: Deployer, ts: seq<Record>, history: seq<Call>)
    requires DeployList(deploy, ts, history).outcome.Raised?
    ensures var r := DeployList(deploy, ts, history);
      exists j: nat, before, calls :: StopsAt(deploy, ts, history, j, before, r.outcome.error, calls)
        && r.calls == before + calls
    decreases |ts|
  {
    var r := DeployList(deploy, ts, history);
    var first := deploy(ts[0], history);
    if first.outcome.Raised? {
      assert DeployList(deploy, ts[..0], history) == Run(Done, []);
      assert history + [] == history && r.calls == [] + first.calls;
      assert StopsAt(deploy, ts, history, 0, [], r.outcome.error, first.calls);
    } else {
      var h := history + first.calls;
      DeployStopsAtFirstError(deploy, ts[1..], h);
      var rest := DeployList(deploy, ts[1..], h);
      var j: nat, before, calls :| StopsAt(deploy, ts[1..], h, j, before, rest.outcome.error, calls)
        && rest.calls == before + calls;
      assert ts[..j + 1][0] == ts[0] && ts[..j + 1][1..] == ts[1..][..j];
      assert DeployList(deploy, ts[..j + 1], history) == Run(Done, first.calls + before);
      assert h + before == history + (first.calls + before);
      assert StopsAt(deploy, ts, history, j + 1, first.calls + before, r.outcome.error, calls);
      assert r.calls == first.calls + (before + calls) == (first.calls + before) + calls;
    }
  }

  /** A template of any kind other than "glue" and "cloudwatch" makes the
      whole deployment fail, wherever it sits in the list. */
  lemma {:induction false} DeployRejectsUnknownKind(index: Index, prefix: string, role: string, remote: Remote,
                                                    ts: seq<Record>, history: seq<Call>, k: nat)
    requires k < |ts| && ts[k].kind != "glue" && ts[k].kind != "cloudwatch"
    ensures DeployList(DeployerFor(index, prefix, role, remote), ts, history).outcome.Raised?
    decreases |ts|
  {
    var first := DeployOne(index, prefix, role, ts[0], remote, history);
    if k > 0 && first.outcome.Done? {
      DeployRejectsUnknownKind(index, prefix, role, remote, ts[1..], history + first.calls, k - 1);
    }
  }

  // ---------------------------------------------------------------------
  // filter_template

  /** The snapshot holds an entry with the same name and an equal spec. */
  predicate Unchanged(t: Record, legacy: seq<Record>) {
    exists lt :: lt in legacy && lt.name == t.name && lt.template.spec == t.template.spec
  }

  /** The templates to deploy: everything without a snapshot, otherwise
      those the snapshot does not hold unchanged, in their order. */
  function Filtered(origin: seq<Record>, legacy: Option<seq<Record>>): seq<Record>
    decreases |origin|
  {
    if legacy.None? then origin
    else if origin == [] then []
    else
      var last := origin[|origin| - 1];
      Filtered(origin[..|origin| - 1], legacy) + (if Unchanged(last, legacy.value) then [] else [last])
  }

  /** A template is kept exactly when it is current and the snapshot does
      not hold it unchanged, so entries only the snapshot has never appear;
      the kept ones keep their order. */
  lemma {:induction false} FilteredExactly(origin: seq<Record>, legacy: seq<Record>)
    ensures forall t :: t in Filtered(origin, Some(legacy)) <==> t in origin && !Unchanged(t, legacy)
    ensures IsSubsequence(Filtered(origin, Some(legacy)), origin)
    decreases |origin|
  {
    if origin != [] {
      var init := origin[..|origin| - 1];
      var last := origin[|origin| - 1];
      FilteredExactly(init, legacy);
      assert origin == init + [last];
      SubsequenceExtend(Filtered(init, Some(legacy)), init, last);
      if Unchanged(last, legacy) {
        assert Filtered(origin, Some(legacy)) == Filtered(init, Some(legacy));
      } else {
        assert Filtered(origin, Some(legacy)) == Filtered(init, Some(legacy)) + [last];
      }
    }
  }

  /** Extending a list by one element keeps a subsequence of it a
      subsequence, with or without that element. */
  lemma {:induction false} SubsequenceExtend<T>(a: seq<T>, b: seq<T>, x: T)
    requires IsSubsequence(a, b)
    ensures IsSubsequence(a, b + [x]) && IsSubsequence(a + [x], b + [x])
    decreases |b|
  {
    if a == [] {
      SubsequenceSingle(b, x);
      assert a + [x] == [x];
    } else {
      assert (b + [x])[0] == b[0] && (b + [x])[1..] == b[1..] + [x];
      assert (a + [x])[0] == a[0] && (a + [x])[1..] == a[1..] + [x];
      if a[0] == b[0] && IsSubsequence(a[1..], b[1..]) {
        SubsequenceExtend(a[1..], b[1..], x);
        assert IsSubsequence(a[1..], (b + [x])[1..]);
        assert IsSubsequence((a + [x])[1..], (b + [x])[1..]);
      } else {
        SubsequenceExtend(a, b[1..], x);
        assert IsSubsequence(a, (b + [x])[1..]);
        assert IsSubsequence(a + [x], (b + [x])[1..]);
      }
    }
  }

  lemma {:induction false} SubsequenceSingle<T>(b: seq<T>, x: T)
    ensures IsSubsequence([x], b + [x])
    decreases |b|
  {
    if b != [] {
      assert (b + [x])[1..] == b[1..] + [x];
      SubsequenceSingle(b[1..], x);
    } else {
      assert [x][1..] == [];
    }
  }

  /** A template whose name the snapshot does not have is always deployed. */
  lemma NewNamesKept(origin: seq<Record>, legacy: seq<Record>, t: Record)
    requires t in origin && forall lt :: lt in legacy ==> lt.name != t.name
    ensures t in Filtered(origin, Some(legacy))
  {
    FilteredExactly(origin, legacy);
  }

  /** When the snapshot holds every current template unchanged, nothing is
      left to deploy. */
  lemma {:induction false} FilteredDropsHeld(origin: seq<Record>, legacy: seq<Record>)
    requires forall t :: t in origin ==> Unchanged(t, legacy)
    ensures Filtered(origin, Some(legacy)) == []
    decreases |origin|
  {
    if origin != [] {
      FilteredDropsHeld(origin[..|origin| - 1], legacy);
      assert origin[|origin| - 1] in origin;
    }
  }

  /** Against a snapshot of the very same list, nothing is left to deploy. */
  lemma FilteredAgainstItselfIsEmpty(origin: seq<Record>)
    ensures Filtered(origin, Some(origin)) == []
  {
    forall t | t in origin
      ensures Unchanged(t, origin)
    {
    }
    FilteredDropsHeld(origin, origin);
  }

  // ---------------------------------------------------------------------
  // auto_create

  /** One entry of the Semi Replicator targets: database, table and an
      unused third element. */
  datatype Target = Target(database: string, table: string, unused: Value)

  function CamelName(dbUid: string, t: Target): string {
    Casing.ToCamelCase("SR_" + dbUid + "_" + t.database + "_" + t.table)
  }

  /** The glue template `auto_create` emits for one target. */
  function GlueTemplate(dbUid: string, bucket: string, schedule: Value, t: Target): Value {
    var camel := CamelName(dbUid, t);
    Dict(map[
      "kind" := Str("glue"),
      "name" := Str("glue-" + camel),
      "spec" := Dict(map[
        "name" := Str(camel),
        "S3TargetPath" := Str("s3://" + bucket + "/default/lake/discover/general/value/SemiReplicator/"
                               + dbUid + "/" + t.database + "/" + t.table),
        "Schedule" := schedule])])
  }

  /** Every generated name starts with "SR" and has no underscore left;
      deploying the generated spec as it is, with its database already
      present, stops with a KeyError on `Description` after the database
      probe and the crawler deletion, because the spec carries no
      description. */
  lemma GeneratedGlueTemplate(prefix: string, role: string, dbUid: string, bucket: string, schedule: Value, t: Target,
                              remote: Remote, history: seq<Call>)
    requires var db := DatabaseName(prefix, CamelName(dbUid, t));
      remote(history, GetDatabase(db)).Answered?
    ensures var camel := CamelName(dbUid, t);
      && '_' !in camel && |camel| >= 2 && camel[..2] == "SR"
      && GlueRun(prefix, role, GlueTemplate(dbUid, bucket, schedule, t).fields["spec"], remote, history)
         == Run(Raised(KeyMissing("Description")),
                [GetDatabase(DatabaseName(prefix, camel)), DeleteCrawler(prefix + camel + "Crawler")])
  {
    var s := "SR_" + dbUid + "_" + t.database + "_" + t.table;
    var parts := Casing.Split(s, '_');
    assert s[0] == 'S' && s[1] == 'R' && s[2] == '_';
    assert parts[0] == "SR";
  }

  // ---------------------------------------------------------------------
  // The deployer object

  class Scheduler {
    const handler: Templates.Template
    const prefix: string
    const glueRoleArn: string
    /** The glue and cloudwatch templates, glue first. */
    var originTemplates: seq<Record>
    /** The templates that changed since the snapshot. */
    var filteredTemplates: seq<Record>

    /** Builds the deployer state from a loaded registry and the snapshot
        of the last deployment, if there is one. */
    constructor(handler: Templates.Template, prefix: string, glueRoleArn: string, legacy: Option<seq<Record>>)
      requires handler.Valid()
      ensures this.handler == handler && this.prefix == prefix && this.glueRoleArn == glueRoleArn
      ensures var all := handler.templates.Records();
        originTemplates == Templates.Select(handler.tools, Templates.Query("glue", None, [], map[]), all)
                         + Templates.Select(handler.tools, Templates.Query("cloudwatch", None, [], map[]), all)
      ensures filteredTemplates == Filtered(originTemplates, legacy)
    {
      this.handler := handler;
      this.prefix := prefix;
      this.glueRoleArn := glueRoleArn;
      var glues := handler.Find(Templates.Query("glue", None, [], map[]));
      var cloudwatches := handler.Find(Templates.Query("cloudwatch", None, [], map[]));
      originTemplates := glues + cloudwatches;
      new;
      filteredTemplates := FilterTemplate(legacy);
    }

    /** `filter_template`: keep each current template that no snapshot entry
        matches by name and spec. */
    method FilterTemplate(legacy: Option<seq<Record>>) returns (result: seq<Record>)
      ensures result == Filtered(originTemplates, legacy)
    {
      if legacy.None? {
        return originTemplates;
      }
      var legacyTemplates := legacy.value;
      result := [];
      var i := 0;
      while i < |originTemplates|
        invariant i <= |originTemplates|
        invariant result == Filtered(originTemplates[..i], legacy)
      {
        var at := originTemplates[i];
        var same := false;
        var j := 0;
        while j < |legacyTemplates|
          invariant j <= |legacyTemplates|
          invariant same ==> Unchanged(at, legacyTemplates)
          invariant !same ==> forall k :: 0 <= k < j ==>
            legacyTemplates[k].name != at.name || legacyTemplates[k].template.spec != at.template.spec
        {
          var lt := legacyTemplates[j];
          if lt.name == at.name && at.template.spec == lt.template.spec {
            same := true;
            break;
          }
          j := j + 1;
        }
        assert originTemplates[..i + 1][..i] == originTemplates[..i];
        if !same {
          result := result + [at];
        }
        i := i + 1;
      }
      assert originTemplates[..i] == originTemplates;
    }

    /** `put_glue` */
    method PutGlue(spec: Value, remote: Remote, history: seq<Call>) returns (outcome: Outcome, calls: seq<Call>)
      ensures Run(outcome, calls) == GlueRun(prefix, glueRoleArn, spec, remote, history)
    {
      calls := [];
      assert history + calls == history;
      var nameValue := Lookup(spec, "name");
      if nameValue.Err? {
        return Raised(nameValue.error), calls;
      }
      if !nameValue.value.Str? {
        return Raised(TypeMismatch), calls;
      }
      var name := nameValue.value.s;
      var dbName := Casing.MakeSnake(prefix) + "_" + Casing.MakeSnake(name);
      var crawlerName := prefix + name + "Crawler";
      var probed := remote(history + calls, GetDatabase(dbName));
      calls := calls + [GetDatabase(dbName)];
      assert calls == [GetDatabase(dbName)];
      if !probed.Answered? {
        var created := remote(history + calls, CreateDatabase(dbName, "Database"));
        calls := calls + [CreateDatabase(dbName, "Database")];
        if !created.Answered? {
          return Raised(Raise(created)), calls;
        }
      }
      var _ := remote(history + calls, DeleteCrawler(crawlerName));
      calls := calls + [DeleteCrawler(crawlerName)];
      var description := Lookup(spec, "Description");
      if description.Err? {
        return Raised(description.error), calls;
      }
      var s3TargetPath := Lookup(spec, "S3TargetPath");
      if s3TargetPath.Err? {
        return Raised(s3TargetPath.error), calls;
      }
      var schedule := Lookup(spec, "Schedule");
      if schedule.Err? {
        return Raised(schedule.error), calls;
      }
      var create := CreateCrawler(crawlerName, description.value, glueRoleArn, s3TargetPath.value, schedule.value, dbName);
      var result := remote(history + calls, create);
      calls := calls + [create];
      outcome := if result.Answered? then Done else Raised(Raise(result));
    }

    /** `put_cloudwatch_event` */
    method PutCloudwatchEvent(spec: Value, remote: Remote, history: seq<Call>) returns (outcome: Outcome, calls: seq<Call>)
      ensures Run(outcome, calls) == CloudwatchRun(prefix, spec, remote, history)
    {
      calls := [];
      var nameValue := Lookup(spec, "name");
      if nameValue.Err? {
        return Raised(nameValue.error), calls;
      }
      var functionValue := GetOr(spec.fields, "FunctionName", nameValue.value);
      if !functionValue.Str? || !nameValue.value.Str? {
        return Raised(TypeMismatch), calls;
      }
      var functionName := functionValue.s;
      var key := prefix + functionName;
      var nameKey := prefix + nameValue.value.s;
      var description := GetOr(spec.fields, "Description", Str(""));
      var scheduleExpression := GetOr(spec.fields, "Schedule", Str(""));
      var eventPattern := GetOr(spec.fields, "EventPattern", Str(""));
      var pattern := if Truthy(eventPattern) then Json(eventPattern) else AsIs(eventPattern);
      var inputValue := GetOr(spec.fields, "Input", Dict(map[]));
      var deleted := GetOr(spec.fields, "deleted", Bool(false));
      var targetId := key + "-target";
      var permission := AddPermission(functionName, key + "_Statement");
      var _ := remote(history, permission);
      calls := [permission];
      if Truthy(deleted) {
        var remove := RemoveTargets(key, [targetId]);
        var removed := remote(history + calls, remove);
        calls := [permission, remove];
        if removed.NotFound? {
          return Done, calls;
        } else if removed.Failure? {
          return Raised(RemoteFailure), calls;
        }
        assert history + calls == history + [permission] + [remove];
        var dropped := remote(history + calls, DeleteRule(key));
        calls := [permission, remove, DeleteRule(key)];
        outcome := if dropped.Failure? then Raised(RemoteFailure) else Done;
      } else {
        var put := PutRule(nameKey, pattern, scheduleExpression, description);
        var written := remote(history + calls, put);
        calls := [permission, put];
        if !written.Answered? {
          return Raised(Raise(written)), calls;
        }
        assert history + calls == history + [permission] + [put];
        var found := remote(history + calls, GetFunction(functionName));
        calls := [permission, put, GetFunction(functionName)];
        if !found.Answered? {
          return Raised(InvalidFunctionName(functionName)), calls;
        }
        var configuration := Lookup(found.response, "Configuration");
        if configuration.Err? {
          return Raised(InvalidFunctionName(functionName)), calls;
        }
        var lambdaArn := Lookup(configuration.value, "FunctionArn");
        if lambdaArn.Err? {
          return Raised(InvalidFunctionName(functionName)), calls;
        }
        var attach := PutTargets(nameKey, targetId, lambdaArn.value, Json(inputValue));
        assert history + calls == history + [permission] + [put, GetFunction(functionName)];
        var attached := remote(history + calls, attach);
        calls := [permission, put, GetFunction(functionName), attach];
        outcome := if attached.Answered? then Done else Raised(Raise(attached));
      }
    }

    /** `_deploy` */
    method Deploy(t: Record, remote: Remote, history: seq<Call>) returns (outcome: Outcome, calls: seq<Call>)
      ensures Run(outcome, calls) == DeployOne(handler.templates, prefix, glueRoleArn, t, remote, history)
      ensures Run(outcome, calls) == DeployerFor(handler.templates, prefix, glueRoleArn, remote)(t, history)
    {
      var spec := handler.GetSpec(t.name);
      if spec.Err? {
        return Raised(spec.error), [];
      }
      if t.kind == "cloudwatch" {
        outcome, calls := PutCloudwatchEvent(spec.value, remote, history);
      } else if t.kind == "glue" {
        outcome, calls := PutGlue(spec.value, remote, history);
      } else {
        return Raised(InvalidKind(t.kind)), [];
      }
    }

    /** `deploy_all`: deploy every template, or only the changed ones, in
        order, stopping at the first exception. */
    method DeployAll(noCache: bool, remote: Remote, history: seq<Call>) returns (outcome: Outcome, calls: seq<Call>)
      ensures Run(outcome, calls) == DeployList(DeployerFor(handler.templates, prefix, glueRoleArn, remote),
                                                if noCache then originTemplates else filteredTemplates, history)
    {
      var templates := if noCache then originTemplates else filteredTemplates;
      ghost var deploy := DeployerFor(handler.templates, prefix, glueRoleArn, remote);
      calls := [];
      var i := 0;
      assert templates[i..] == templates && history + calls == history;
      while i < |templates|
        invariant i <= |templates|
        invariant DeployList(deploy, templates, history).outcome == DeployList(deploy, templates[i..], history + calls).outcome
        invariant DeployList(deploy, templates, history).calls == calls + DeployList(deploy, templates[i..], history + calls).calls
      {
        var more;
        outcome, more := Deploy(templates[i], remote, history + calls);
        if outcome.Raised? {
          DeployListStep(deploy, templates, i, history + calls, Run(outcome, more));
          return outcome, calls + more;
        }
        DeployListAdvance(deploy, templates, i, history, calls, more);
        calls := calls + more;
        i := i + 1;
      }
      assert templates[i..] == [];
      outcome := Done;
    }

    /** The list-building part of `auto_create`. */
    method AutoCreate(dbUid: string, targets: seq<Target>, bucket: string, schedule: Value) returns (glues: seq<Value>)
      ensures |glues| == |targets|
      ensures forall k :: 0 <= k < |targets| ==> glues[k] == GlueTemplate(dbUid, bucket, schedule, targets[k])
    {
      glues := [];
      for i := 0 to |targets|
        invariant |glues| == i
        invariant forall k :: 0 <= k < i ==> glues[k] == GlueTemplate(dbUid, bucket, schedule, targets[k])
      {
        var target := targets[i];
        var camelName := Casing.ToCamelCase("SR_" + dbUid + "_" + target.database + "_" + target.table);
        glues := glues + [Dict(map[
          "kind" := Str("glue"),
          "name" := Str("glue-" + camelName),
          "spec" := Dict(map[
            "name" := Str(camelName),
            "S3TargetPath" := Str("s3://" + bucket + "/default/lake/discover/general/value/SemiReplicator/"
                                   + dbUid + "/" + target.database + "/" + target.table),
            "Schedule" := schedule])])];
      }
    }
  }
}

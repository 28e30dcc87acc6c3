/**
 * The branch-migration hook runners of `RepositoryMixin`. The installed repository keeps one
 * migration record per `(repository, from branch, to branch)`: the md5 of the post-switch
 * script that last ran for it, and the md5 of the post-upgrade script that last ran ("0"
 * while none has). A script's md5 is "0" when the script cannot be read.
 *
 * The md5 of each repository's script and the exit status of running it are inputs
 * (`md5`, `exitCode`); the installed repository is a `MigrationTable`, `null` when none is open.
 */
module BranchHooks {

  datatype MigrationKey = MigrationKey(repo: string, fromBranch: string, toBranch: string)

  datatype MigrationRecord = MigrationRecord(md5: string, postUpgradeMd5: string)

  /** The md5 standing for "no readable script", and the post-upgrade md5 of a fresh record. */
  const NoScript: string := "0"

  /** The branch-migration table of the installed repository. */
  class MigrationTable {
    var records: map<MigrationKey, MigrationRecord>

    constructor (initial: map<MigrationKey, MigrationRecord>)
      ensures records == initial
    {
      records := initial;
    }

    /** `insertBranchMigration`: the record is created or overwritten. */
    method InsertBranchMigration(key: MigrationKey, md5: string, postUpgradeMd5: string)
      modifies this
      ensures records == old(records)[key := MigrationRecord(md5, postUpgradeMd5)]
    {
      records := records[key := MigrationRecord(md5, postUpgradeMd5)];
    }

    /** `setBranchMigrationPostUpgradeMd5sum`: an update of an existing record only. */
    method SetPostUpgradeMd5(key: MigrationKey, md5: string)
      modifies this
      ensures records == if key in old(records) then old(records)[key := old(records)[key].(postUpgradeMd5 := md5)]
        else old(records)
    {
      if key in records {
        records := records[key := records[key].(postUpgradeMd5 := md5)];
      }
    }
  }

  // ---- post branch switch ----

  /** The post-switch script of `repo` already ran in this very version. */
  predicate SwitchDone(records: map<MigrationKey, MigrationRecord>, repo: string, fromBranch: string,
    toBranch: string, md5: string)
  {
    MigrationKey(repo, fromBranch, toBranch) in records &&
    records[MigrationKey(repo, fromBranch, toBranch)].md5 == md5
  }

  /** The repositories the post-switch runner does not skip. */
  function SwitchRan(records: map<MigrationKey, MigrationRecord>, repos: set<string>, fromBranch: string,
    toBranch: string, md5: string -> string): set<string>
  {
    set r | r in repos && !SwitchDone(records, r, fromBranch, toBranch, md5(r))
  }

  /** Each repository the runner did not skip gets the record `(md5, "0")`; the rest stay. */
  function SwitchRecords(records: map<MigrationKey, MigrationRecord>, ran: set<string>, fromBranch: string,
    toBranch: string, md5: string -> string): map<MigrationKey, MigrationRecord>
  {
    map k | k in records.Keys + HopsOf(ran, fromBranch, toBranch) ::
      if k in HopsOf(ran, fromBranch, toBranch) then MigrationRecord(md5(k.repo), NoScript) else records[k]
  }

  function HopsOf(repos: set<string>, fromBranch: string, toBranch: string): set<MigrationKey> {
    set r | r in repos :: MigrationKey(r, fromBranch, toBranch)
  }

  /** Some repository that was not skipped had a readable script that exited non-zero. */
  predicate SwitchFailed(ran: set<string>, md5: string -> string, exitCode: string -> int) {
    FailedScripts(ran, md5, exitCode) != {}
  }

  /** The repositories whose readable post-switch script exited with a non-zero status. */
  function FailedScripts(ran: set<string>, md5: string -> string, exitCode: string -> int): set<string> {
    set r | r in ran && md5(r) != NoScript && exitCode(r) != 0
  }

  /**
   * `run_repositories_post_branch_switch_hooks`: every known repository whose script changed
   * since it last ran for this branch hop (or never ran) has its script run, when readable,
   * gets the record `(md5, "0")` and is reported. The source reads the `available` table
   * twice where the second read was meant to be `excluded`, so `available` alone decides
   * which repositories are visited.
   */
  method RunPostBranchSwitchHooks(table: MigrationTable?, available: set<string>, oldBranch: string,
    newBranch: string, md5: string -> string, exitCode: string -> int)
    returns (ran: set<string>, errors: bool)
    modifies table
    ensures table == null ==> ran == {} && errors
    ensures table != null ==> ran == SwitchRan(old(table.records), available, oldBranch, newBranch, md5)
    ensures table != null ==> table.records == SwitchRecords(old(table.records), ran, oldBranch, newBranch, md5)
    ensures table != null ==> errors == SwitchFailed(ran, md5, exitCode)
  {
    if table == null {
      return {}, true;
    }
    ran, errors := RunSwitchHooksOn(table, available, oldBranch, newBranch, md5, exitCode);
  }

  /** The loop of the post-switch runner, over an open installed repository. */
  method RunSwitchHooksOn(table: MigrationTable, available: set<string>, oldBranch: string,
    newBranch: string, md5: string -> string, exitCode: string -> int)
    returns (ran: set<string>, errors: bool)
    modifies table
    ensures ran == SwitchRan(old(table.records), available, oldBranch, newBranch, md5)
    ensures table.records == SwitchRecords(old(table.records), ran, oldBranch, newBranch, md5)
    ensures errors == SwitchFailed(ran, md5, exitCode)
  {
    ran := {};
    errors := false;
    ghost var records0 := table.records;
    var todo := available;
    SwitchStart(records0, oldBranch, newBranch, md5, exitCode);
    assert available - todo == {};
    while todo != {}
      invariant todo <= available
      invariant SwitchProgress(records0, available - todo, ran, table.records, errors, oldBranch, newBranch, md5, exitCode)
      decreases |todo|
    {
      var repo :| repo in todo;
      ghost var cur := table.records;
      var ranIt, failed := RunSwitchHookOf(table, repo, oldBranch, newBranch, md5(repo), exitCode(repo));
      SwitchStep(records0, available - todo, ran, cur, errors, repo, ranIt, failed, table.records, oldBranch, newBranch,
        md5, exitCode);
      assert available - todo + {repo} == available - (todo - {repo});
      todo := todo - {repo};
      if ranIt {
        ran := ran + {repo};
      }
      errors := errors || failed;
    }
  }

  /** What the post-switch loop has achieved once it has visited the repositories `done`. */
  ghost predicate SwitchProgress(records: map<MigrationKey, MigrationRecord>, done: set<string>, ran: set<string>,
    cur: map<MigrationKey, MigrationRecord>, errors: bool, fromBranch: string, toBranch: string,
    md5: string -> string, exitCode: string -> int)
  {
    ran == SwitchRan(records, done, fromBranch, toBranch, md5) &&
    cur == SwitchRecords(records, ran, fromBranch, toBranch, md5) &&
    errors == SwitchFailed(ran, md5, exitCode)
  }

  lemma SwitchStart(records: map<MigrationKey, MigrationRecord>, fromBranch: string, toBranch: string,
    md5: string -> string, exitCode: string -> int)
    ensures SwitchProgress(records, {}, {}, records, false, fromBranch, toBranch, md5, exitCode)
  {
    assert SwitchRecords(records, {}, fromBranch, toBranch, md5) == records;
  }

  /** One iteration of the post-switch loop: the hop of `repo` from `oldBranch` to `newBranch`. */
  method RunSwitchHookOf(table: MigrationTable, repo: string, oldBranch: string, newBranch: string, md5: string,
    exitCode: int)
    returns (ranIt: bool, failed: bool)
    modifies table
    ensures ranIt == !SwitchDone(old(table.records), repo, oldBranch, newBranch, md5)
    ensures table.records == if ranIt then old(table.records)[MigrationKey(repo, oldBranch, newBranch) :=
      MigrationRecord(md5, NoScript)] else old(table.records)
    ensures failed == (ranIt && md5 != NoScript && exitCode != 0)
  {
    var key := MigrationKey(repo, oldBranch, newBranch);
    if key in table.records && table.records[key].md5 == md5 {
      return false, false;
    }
    failed := md5 != NoScript && exitCode != 0;
    table.InsertBranchMigration(key, md5, NoScript);
    ranIt := true;
  }

  /** One repository more: the loop's progress after visiting `repo` as `RunSwitchHookOf` does. */
  lemma SwitchStep(records: map<MigrationKey, MigrationRecord>, done: set<string>, ran: set<string>,
    cur: map<MigrationKey, MigrationRecord>, errors: bool, repo: string, ranIt: bool, failed: bool,
    next: map<MigrationKey, MigrationRecord>, fromBranch: string, toBranch: string,
    md5: string -> string, exitCode: string -> int)
    requires SwitchProgress(records, done, ran, cur, errors, fromBranch, toBranch, md5, exitCode)
    requires repo !in done
    requires ranIt == !SwitchDone(cur, repo, fromBranch, toBranch, md5(repo))
    requires next == if ranIt then cur[MigrationKey(repo, fromBranch, toBranch) := MigrationRecord(md5(repo), NoScript)]
      else cur
    requires failed == (ranIt && md5(repo) != NoScript && exitCode(repo) != 0)
    ensures SwitchProgress(records, done + {repo}, if ranIt then ran + {repo} else ran, next, errors || failed,
      fromBranch, toBranch, md5, exitCode)
  {
    assert repo !in ran;
    SwitchDoneUntouched(records, ran, repo, fromBranch, toBranch, md5);
    SwitchRanGrows(records, done, repo, fromBranch, toBranch, md5);
    if ranIt {
      SwitchRecordsGrows(records, ran, repo, fromBranch, toBranch, md5);
      FailedScriptsGrow(ran, repo, md5, exitCode);
    }
  }

  lemma SwitchDoneUntouched(records: map<MigrationKey, MigrationRecord>, ran: set<string>, repo: string,
    fromBranch: string, toBranch: string, md5: string -> string)
    requires repo !in ran
    ensures SwitchDone(SwitchRecords(records, ran, fromBranch, toBranch, md5), repo, fromBranch, toBranch, md5(repo)) ==
      SwitchDone(records, repo, fromBranch, toBranch, md5(repo))
  {
    assert MigrationKey(repo, fromBranch, toBranch) !in HopsOf(ran, fromBranch, toBranch);
  }

  lemma SwitchRanGrows(records: map<MigrationKey, MigrationRecord>, done: set<string>, repo: string,
    fromBranch: string, toBranch: string, md5: string -> string)
    ensures SwitchRan(records, done + {repo}, fromBranch, toBranch, md5) ==
      SwitchRan(records, done, fromBranch, toBranch, md5) +
      (if SwitchDone(records, repo, fromBranch, toBranch, md5(repo)) then {} else {repo})
  {
  }

  lemma SwitchRecordsGrows(records: map<MigrationKey, MigrationRecord>, ran: set<string>, repo: string,
    fromBranch: string, toBranch: string, md5: string -> string)
    ensures SwitchRecords(records, ran + {repo}, fromBranch, toBranch, md5) ==
      SwitchRecords(records, ran, fromBranch, toBranch, md5)[MigrationKey(repo, fromBranch, toBranch) :=
        MigrationRecord(md5(repo), NoScript)]
  {
    assert HopsOf(ran + {repo}, fromBranch, toBranch) ==
      HopsOf(ran, fromBranch, toBranch) + {MigrationKey(repo, fromBranch, toBranch)};
  }

  lemma FailedScriptsGrow(ran: set<string>, repo: string, md5: string -> string, exitCode: string -> int)
    ensures FailedScripts(ran + {repo}, md5, exitCode) ==
      FailedScripts(ran, md5, exitCode) + (if md5(repo) != NoScript && exitCode(repo) != 0 then {repo} else {})
  {
  }

  /**
   * Running the post-switch hooks a second time with unchanged scripts runs nothing and
   * leaves the records as the first run wrote them.
   */
  lemma SwitchIdempotent(records: map<MigrationKey, MigrationRecord>, repos: set<string>, fromBranch: string,
    toBranch: string, md5: string -> string)
    ensures var ran := SwitchRan(records, repos, fromBranch, toBranch, md5);
      var after := SwitchRecords(records, ran, fromBranch, toBranch, md5);
      SwitchRan(after, repos, fromBranch, toBranch, md5) == {} &&
      SwitchRecords(after, {}, fromBranch, toBranch, md5) == after
  {
    var ran := SwitchRan(records, repos, fromBranch, toBranch, md5);
    var after := SwitchRecords(records, ran, fromBranch, toBranch, md5);
    forall r | r in repos ensures SwitchDone(after, r, fromBranch, toBranch, md5(r)) {
      var key := MigrationKey(r, fromBranch, toBranch);
      if r in ran {
        assert after[key] == MigrationRecord(md5(r), NoScript);
      } else {
        assert key !in HopsOf(ran, fromBranch, toBranch);
      }
    }
  }

  // ---- post branch upgrade ----

  /** The repositories the upgrade runner considers: enabled, known, and with a readable script. */
  function UpgradeCandidates(enabled: seq<string>, available: set<string>, md5: string -> string): set<string> {
    set r | r in enabled && r in available && md5(r) != NoScript
  }

  /** The records of `repos` into `branch` whose post-upgrade script has not run in its current version. */
  function UpgradeTargets(records: map<MigrationKey, MigrationRecord>, repos: set<string>, branch: string,
    md5: string -> string): set<MigrationKey>
  {
    set k | k in records && k.repo in repos && k.toBranch == branch && records[k].postUpgradeMd5 != md5(k.repo)
  }

  /** The records after the scripts of `targets` ran: their post-upgrade md5 is the script's. */
  function UpgradedRecords(records: map<MigrationKey, MigrationRecord>, targets: set<MigrationKey>,
    md5: string -> string): map<MigrationKey, MigrationRecord>
  {
    map k | k in records :: if k in targets then records[k].(postUpgradeMd5 := md5(k.repo)) else records[k]
  }

  /** The hops the post-upgrade runner acts on. */
  function PendingHops(records: map<MigrationKey, MigrationRecord>, enabled: seq<string>, available: set<string>,
    branch: string, md5: string -> string): set<MigrationKey>
  {
    UpgradeTargets(records, UpgradeCandidates(enabled, available, md5), branch, md5)
  }

  function ReposOf(targets: set<MigrationKey>): set<string> {
    set k | k in targets :: k.repo
  }

  predicate UpgradeFailed(targets: set<MigrationKey>, exitCode: (string, string) -> int) {
    FailedHops(targets, exitCode) != {}
  }

  /** The hops whose post-upgrade script exited with a non-zero status. */
  function FailedHops(targets: set<MigrationKey>, exitCode: (string, string) -> int): set<MigrationKey> {
    set k | k in targets && exitCode(k.repo, k.fromBranch) != 0
  }

  lemma FailedHopsGrow(targets: set<MigrationKey>, k: MigrationKey, exitCode: (string, string) -> int)
    ensures FailedHops(targets + {k}, exitCode) ==
      FailedHops(targets, exitCode) + (if exitCode(k.repo, k.fromBranch) != 0 then {k} else {})
  {
  }

  /**
   * The inner loop of the post-upgrade runner, over the from-branches recorded for `repo` into
   * `branch`: each whose post-upgrade md5 differs from the script's marks the repository as
   * run; unless pretending, the script runs and the record takes the script's md5.
   */
  method RunUpgradeHooksOfRepo(table: MigrationTable, repo: string, branch: string, md5: string -> string,
    pretend: bool, exitCode: (string, string) -> int)
    returns (ranRepo: bool, errors: bool)
    modifies table
    ensures ranRepo == (UpgradeTargets(old(table.records), {repo}, branch, md5) != {})
    ensures table.records ==
      if pretend then old(table.records)
      else UpgradedRecords(old(table.records), UpgradeTargets(old(table.records), {repo}, branch, md5), md5)
    ensures errors == (!pretend && UpgradeFailed(UpgradeTargets(old(table.records), {repo}, branch, md5), exitCode))
  {
    ghost var records0 := table.records;
    ghost var targets := UpgradeTargets(records0, {repo}, branch, md5);
    var todo := RepoHops(table.records, repo, branch);
    ghost var hops := todo;
    ranRepo := false;
    errors := false;
    UpgradeStart(records0, hops, targets, pretend, md5, exitCode);
    while todo != {}
      invariant todo <= hops
      invariant HopProgress(records0, targets * (hops - todo), ranRepo, table.records, errors, pretend, md5, exitCode)
      decreases |todo|
    {
      var k :| k in todo;
      ghost var cur := table.records;
      UpgradeUntouched(records0, targets * (hops - todo), k, md5);
      var pending, failed := RunUpgradeHookOf(table, k, md5(repo), pretend, exitCode(repo, k.fromBranch));
      UpgradeStep(records0, targets, hops - todo, k, repo, branch, md5, exitCode, ranRepo, cur, errors, pretend,
        pending, failed, table.records);
      VisitOne(hops, todo, k);
      todo := todo - {k};
      ranRepo := ranRepo || pending;
      errors := errors || failed;
    }
    UpgradeEnd(records0, repo, branch, md5, hops, targets);
  }

  /** What the inner post-upgrade loop has achieved once it has handled the pending hops `doneTargets`. */
  ghost predicate HopProgress(records: map<MigrationKey, MigrationRecord>, doneTargets: set<MigrationKey>,
    ranRepo: bool, cur: map<MigrationKey, MigrationRecord>, errors: bool, pretend: bool, md5: string -> string,
    exitCode: (string, string) -> int)
  {
    ranRepo == (doneTargets != {}) &&
    cur == (if pretend then records else UpgradedRecords(records, doneTargets, md5)) &&
    errors == (!pretend && UpgradeFailed(doneTargets, exitCode))
  }

  lemma UpgradeStart(records: map<MigrationKey, MigrationRecord>, hops: set<MigrationKey>, targets: set<MigrationKey>,
    pretend: bool, md5: string -> string, exitCode: (string, string) -> int)
    ensures HopProgress(records, targets * (hops - hops), false, records, false, pretend, md5, exitCode)
  {
    assert targets * (hops - hops) == {};
    assert UpgradedRecords(records, {}, md5) == records;
  }

  lemma UpgradeEnd(records: map<MigrationKey, MigrationRecord>, repo: string, branch: string, md5: string -> string,
    hops: set<MigrationKey>, targets: set<MigrationKey>)
    requires hops == RepoHops(records, repo, branch) && targets == UpgradeTargets(records, {repo}, branch, md5)
    ensures targets * (hops - {}) == targets
  {
  }

  /** Visiting one more element of a set being drained. */
  lemma VisitOne<T>(all: set<T>, todo: set<T>, x: T)
    requires x in todo && todo <= all
    ensures all - todo + {x} == all - (todo - {x})
  {
  }

  lemma UpgradeUntouched(records: map<MigrationKey, MigrationRecord>, doneTargets: set<MigrationKey>, k: MigrationKey,
    md5: string -> string)
    requires k in records && k !in doneTargets
    ensures k in UpgradedRecords(records, doneTargets, md5) && UpgradedRecords(records, doneTargets, md5)[k] == records[k]
  {
  }

  /** One iteration of the inner post-upgrade loop: the recorded hop `k`. */
  method RunUpgradeHookOf(table: MigrationTable, k: MigrationKey, md5: string, pretend: bool, exitCode: int)
    returns (pending: bool, failed: bool)
    requires k in table.records
    modifies table
    ensures pending == (old(table.records)[k].postUpgradeMd5 != md5)
    ensures table.records == if pending && !pretend then old(table.records)[k := old(table.records)[k].(postUpgradeMd5 := md5)]
      else old(table.records)
    ensures failed == (pending && !pretend && exitCode != 0)
  {
    if table.records[k].postUpgradeMd5 == md5 {
      return false, false;
    }
    pending := true;
    if pretend {
      return pending, false;
    }
    failed := exitCode != 0;
    table.SetPostUpgradeMd5(k, md5);
  }

  /** One recorded hop more in the inner post-upgrade loop, handled as `RunUpgradeHookOf` does. */
  lemma UpgradeStep(records: map<MigrationKey, MigrationRecord>, targets: set<MigrationKey>, done: set<MigrationKey>,
    k: MigrationKey, repo: string, branch: string, md5: string -> string, exitCode: (string, string) -> int,
    ranRepo: bool, cur: map<MigrationKey, MigrationRecord>, errors: bool, pretend: bool, pending: bool, failed: bool,
    next: map<MigrationKey, MigrationRecord>)
    requires targets == UpgradeTargets(records, {repo}, branch, md5)
    requires k in RepoHops(records, repo, branch) && k !in done
    requires HopProgress(records, targets * done, ranRepo, cur, errors, pretend, md5, exitCode)
    requires k in cur && cur[k] == records[k]
    requires pending == (cur[k].postUpgradeMd5 != md5(repo))
    requires next == if pending && !pretend then cur[k := cur[k].(postUpgradeMd5 := md5(repo))] else cur
    requires failed == (pending && !pretend && exitCode(repo, k.fromBranch) != 0)
    ensures HopProgress(records, targets * (done + {k}), ranRepo || pending, next, errors || failed, pretend,
      md5, exitCode)
  {
    if pending {
      assert k in targets;
      assert targets * (done + {k}) == targets * done + {k};
      if !pretend {
        UpgradedStep(records, targets * done, k, md5);
        FailedHopsGrow(targets * done, k, exitCode);
      }
    } else {
      assert k !in targets;
      assert targets * (done + {k}) == targets * done;
    }
  }

  /** The recorded hops of `repo` into `branch`: `retrieveBranchMigration(branch)[repo]`. */
  function RepoHops(records: map<MigrationKey, MigrationRecord>, repo: string, branch: string): set<MigrationKey> {
    set k | k in records && k.repo == repo && k.toBranch == branch
  }

  lemma UpgradedStep(records: map<MigrationKey, MigrationRecord>, done: set<MigrationKey>, k: MigrationKey,
    md5: string -> string)
    requires k in records
    ensures UpgradedRecords(records, done + {k}, md5) ==
      UpgradedRecords(records, done, md5)[k := records[k].(postUpgradeMd5 := md5(k.repo))]
  {
  }

  /** The targets of a set of repositories are the targets of each. */
  lemma TargetsSplit(records: map<MigrationKey, MigrationRecord>, seen: set<string>, repo: string,
    branch: string, md5: string -> string)
    ensures UpgradeTargets(records, seen + {repo}, branch, md5) ==
      UpgradeTargets(records, seen, branch, md5) + UpgradeTargets(records, {repo}, branch, md5)
  {
  }

  /** Upgrading other repositories' records does not change what is pending for `repo`. */
  lemma TargetsUntouched(records: map<MigrationKey, MigrationRecord>, seen: set<string>, repo: string,
    branch: string, md5: string -> string)
    requires repo !in seen
    ensures var after := UpgradedRecords(records, UpgradeTargets(records, seen, branch, md5), md5);
      UpgradeTargets(after, {repo}, branch, md5) == UpgradeTargets(records, {repo}, branch, md5)
  {
  }

  /** Once a repository's records are upgraded nothing is pending for it any more. */
  lemma TargetsDone(records: map<MigrationKey, MigrationRecord>, seen: set<string>, repo: string,
    branch: string, md5: string -> string)
    requires repo in seen
    ensures var after := UpgradedRecords(records, UpgradeTargets(records, seen, branch, md5), md5);
      UpgradeTargets(after, {repo}, branch, md5) == {}
  {
    var after := UpgradedRecords(records, UpgradeTargets(records, seen, branch, md5), md5);
    forall k | k in after && k.repo == repo && k.toBranch == branch
      ensures after[k].postUpgradeMd5 == md5(k.repo)
    {
    }
  }

  lemma UpgradedTwice(records: map<MigrationKey, MigrationRecord>, seen: set<string>, repo: string,
    branch: string, md5: string -> string)
    requires repo !in seen
    ensures var after := UpgradedRecords(records, UpgradeTargets(records, seen, branch, md5), md5);
      UpgradedRecords(after, UpgradeTargets(records, {repo}, branch, md5), md5) ==
      UpgradedRecords(records, UpgradeTargets(records, seen + {repo}, branch, md5), md5)
  {
    TargetsSplit(records, seen, repo, branch, md5);
  }

  /**
   * `run_repository_post_branch_upgrade_hooks`: for each enabled repository that is known and
   * has a readable post-upgrade script, every recorded hop into the current branch whose
   * post-upgrade md5 differs from the script's is reported; unless pretending, the script runs
   * for it and the record takes the script's md5.
   */
  method RunPostBranchUpgradeHooks(table: MigrationTable?, enabled: seq<string>, available: set<string>,
    branch: string, md5: string -> string, pretend: bool, exitCode: (string, string) -> int)
    returns (ran: set<string>, errors: bool)
    modifies table
    ensures table == null ==> ran == {} && errors
    ensures table != null ==> ran == ReposOf(PendingHops(old(table.records), enabled, available, branch, md5))
    ensures table != null && pretend ==> table.records == old(table.records)
    ensures table != null && !pretend ==>
      table.records == UpgradedRecords(old(table.records), PendingHops(old(table.records), enabled, available, branch, md5), md5)
    ensures table != null ==>
      errors == (!pretend && UpgradeFailed(PendingHops(old(table.records), enabled, available, branch, md5), exitCode))
  {
    if table == null {
      return {}, true;
    }
    ran, errors := RunUpgradeHooksOn(table, enabled, available, branch, md5, pretend, exitCode);
  }

  /** The loop of the post-upgrade runner, over an open installed repository. */
  method RunUpgradeHooksOn(table: MigrationTable, enabled: seq<string>, available: set<string>,
    branch: string, md5: string -> string, pretend: bool, exitCode: (string, string) -> int)
    returns (ran: set<string>, errors: bool)
    modifies table
    ensures UpgradeProgress(old(table.records), UpgradeCandidates(enabled, available, md5), ran, table.records, errors,
      pretend, branch, md5, exitCode)
  {
    ran := {};
    errors := false;
    ghost var records0 := table.records;
    UpgradeAllStart(records0, pretend, branch, md5, exitCode);
    var i := 0;
    while i < |enabled|
      invariant i <= |enabled|
      invariant UpgradeProgress(records0, UpgradeCandidates(enabled[..i], available, md5), ran, table.records, errors,
        pretend, branch, md5, exitCode)
    {
      var repo := enabled[i];
      ghost var seen := UpgradeCandidates(enabled[..i], available, md5);
      CandidatesGrow(enabled, i, available, md5);
      if repo in available && md5(repo) != NoScript {
        ghost var cur := table.records;
        var ranRepo, errs := RunUpgradeHooksOfRepo(table, repo, branch, md5, pretend, exitCode);
        UpgradeAllStep(records0, seen, repo, ran, cur, errors, pretend, branch, md5, exitCode, ranRepo, errs, table.records);
        if ranRepo {
          ran := ran + {repo};
        }
        errors := errors || errs;
      }
      i := i + 1;
    }
    assert enabled[..i] == enabled;
  }

  /** What the post-upgrade runner has achieved once it has handled the repositories `seen`. */
  ghost predicate UpgradeProgress(records: map<MigrationKey, MigrationRecord>, seen: set<string>, ran: set<string>,
    cur: map<MigrationKey, MigrationRecord>, errors: bool, pretend: bool, branch: string, md5: string -> string,
    exitCode: (string, string) -> int)
  {
    ran == ReposOf(UpgradeTargets(records, seen, branch, md5)) &&
    cur == (if pretend then records else UpgradedRecords(records, UpgradeTargets(records, seen, branch, md5), md5)) &&
    errors == (!pretend && UpgradeFailed(UpgradeTargets(records, seen, branch, md5), exitCode))
  }

  lemma UpgradeAllStart(records: map<MigrationKey, MigrationRecord>, pretend: bool, branch: string,
    md5: string -> string, exitCode: (string, string) -> int)
    ensures UpgradeProgress(records, {}, {}, records, false, pretend, branch, md5, exitCode)
  {
    assert UpgradeTargets(records, {}, branch, md5) == {};
    assert UpgradedRecords(records, {}, md5) == records;
  }

  lemma CandidatesGrow(enabled: seq<string>, i: nat, available: set<string>, md5: string -> string)
    requires i < |enabled|
    ensures UpgradeCandidates(enabled[..i + 1], available, md5) == UpgradeCandidates(enabled[..i], available, md5) +
      (if enabled[i] in available && md5(enabled[i]) != NoScript then {enabled[i]} else {})
  {
    assert enabled[..i + 1] == enabled[..i] + [enabled[i]];
  }

  /** One candidate repository more, handled as `RunUpgradeHooksOfRepo` does. */
  lemma UpgradeAllStep(records: map<MigrationKey, MigrationRecord>, seen: set<string>, repo: string, ran: set<string>,
    cur: map<MigrationKey, MigrationRecord>, errors: bool, pretend: bool, branch: string, md5: string -> string,
    exitCode: (string, string) -> int, ranRepo: bool, errs: bool, next: map<MigrationKey, MigrationRecord>)
    requires UpgradeProgress(records, seen, ran, cur, errors, pretend, branch, md5, exitCode)
    requires ranRepo == (UpgradeTargets(cur, {repo}, branch, md5) != {})
    requires next == if pretend then cur else UpgradedRecords(cur, UpgradeTargets(cur, {repo}, branch, md5), md5)
    requires errs == (!pretend && UpgradeFailed(UpgradeTargets(cur, {repo}, branch, md5), exitCode))
    ensures UpgradeProgress(records, seen + {repo}, if ranRepo then ran + {repo} else ran, next, errors || errs,
      pretend, branch, md5, exitCode)
  {
    var before := UpgradeTargets(records, seen, branch, md5);
    var mine := UpgradeTargets(records, {repo}, branch, md5);
    TargetsSplit(records, seen, repo, branch, md5);
    ReposOfUnion(before, mine, repo);
    FailedHopsUnion(before, mine, exitCode);
    if repo in seen {
      assert seen + {repo} == seen;
      if !pretend {
        TargetsDone(records, seen, repo, branch, md5);
        assert UpgradedRecords(cur, {}, md5) == cur;
      }
    } else if !pretend {
      TargetsUntouched(records, seen, repo, branch, md5);
      UpgradedTwice(records, seen, repo, branch, md5);
    }
  }

  lemma ReposOfUnion(a: set<MigrationKey>, b: set<MigrationKey>, repo: string)
    requires forall k | k in b :: k.repo == repo
    ensures ReposOf(a + b) == ReposOf(a) + (if b != {} then {repo} else {})
  {
    if b != {} {
      var k :| k in b;
      assert k.repo in ReposOf(a + b);
    }
  }

  lemma FailedHopsUnion(a: set<MigrationKey>, b: set<MigrationKey>, exitCode: (string, string) -> int)
    ensures FailedHops(a + b, exitCode) == FailedHops(a, exitCode) + FailedHops(b, exitCode)
  {
  }

  /**
   * Running the post-upgrade hooks again with unchanged scripts runs nothing and writes
   * nothing.
   */
  lemma UpgradeIdempotent(records: map<MigrationKey, MigrationRecord>, repos: set<string>, branch: string,
    md5: string -> string)
    ensures var after := UpgradedRecords(records, UpgradeTargets(records, repos, branch, md5), md5);
      UpgradeTargets(after, repos, branch, md5) == {}
  {
    var after := UpgradedRecords(records, UpgradeTargets(records, repos, branch, md5), md5);
    forall k | k in after && k.repo in repos && k.toBranch == branch
      ensures after[k].postUpgradeMd5 == md5(k.repo)
    {
    }
  }

  /**
   * The post-switch runner resets the post-upgrade md5 of every hop it ran to "0", so the
   * post-upgrade script of that repository (when readable) runs again for the new branch.
   */
  lemma SwitchReopensUpgrade(records: map<MigrationKey, MigrationRecord>, repos: set<string>, fromBranch: string,
    toBranch: string, switchMd5: string -> string, upgradeMd5: string -> string, r: string)
    requires r in SwitchRan(records, repos, fromBranch, toBranch, switchMd5)
    requires upgradeMd5(r) != NoScript
    ensures var after := SwitchRecords(records, SwitchRan(records, repos, fromBranch, toBranch, switchMd5),
        fromBranch, toBranch, switchMd5);
      MigrationKey(r, fromBranch, toBranch) in UpgradeTargets(after, {r}, toBranch, upgradeMd5)
  {
    var ran := SwitchRan(records, repos, fromBranch, toBranch, switchMd5);
    var after := SwitchRecords(records, ran, fromBranch, toBranch, switchMd5);
    assert after[MigrationKey(r, fromBranch, toBranch)] == MigrationRecord(switchMd5(r), NoScript);
  }
}

/**
 * `templates/shell/dev-restart.py`: find the dev window by its shape and
 * restart its sessions by position: session i of the first tab runs entry
 * i of the local command table, session i of the second tab entry i of the
 * production monitoring table (unless `--local-only` or `--local`). The
 * working directory, server and production directory (PROD_SERVER and
 * PROD_DIR after `.env` is loaded) are parameters.
 */
module DevRestart {
  import opened Optional
  import opened Strings
  import opened Iterm

  /** `PROJECT_DIR` as written: the first argument, whatever it is, else the working directory. */
  function ProjectDirAsWritten(argv: seq<string>, cwd: string): string
  {
    if |argv| > 1 then argv[1] else cwd
  }

  /**
   * The documented call without a directory, `dev-restart.py --local-only`,
   * takes the flag for the directory: every local command then starts
   * with `cd '--local-only'`.
   */
  lemma FlagTakenForDirectory(cwd: string)
    ensures var argv := ["dev-restart.py", "--local-only"];
            && LocalOnly(argv)
            && ProjectDirAsWritten(argv, cwd) == "--local-only"
            && Tab1Commands(ProjectDirAsWritten(argv, cwd))[0].command == "cd '--local-only' && make bot"
  {
  }

  /** `PROJECT_DIR` as the usage line means it: the first argument when it is not a flag, else the working directory. */
  function ProjectDir(argv: seq<string>, cwd: string): string
  {
    if |argv| > 1 && !StartsWith(argv[1], "--") then argv[1] else cwd
  }

  /**
   * The project directory is never one of the flags: it is a first
   * argument that does not start with "--", or the working directory.
   */
  lemma ProjectDirIsNotAFlag(argv: seq<string>, cwd: string)
    ensures var dir := ProjectDir(argv, cwd);
            || (|argv| > 1 && dir == argv[1] && !StartsWith(dir, "--"))
            || dir == cwd
    ensures |argv| > 1 && !StartsWith(argv[1], "--") ==> ProjectDir(argv, cwd) == ProjectDirAsWritten(argv, cwd)
    ensures ProjectDir(["dev-restart.py", "--local-only"], cwd) == cwd
  {
    assert StartsWith("--local-only", "--");
  }

  /** A command table entry: the name printed and the shell command typed. */
  datatype Entry = Entry(name: string, command: string)

  /** `f"cd '{PROJECT_DIR}' && "`, the start of every command. */
  function LocalPrefix(dir: string): string
  {
    "cd '" + dir + "' && "
  }

  /** `f"cd '{PROJECT_DIR}' && ssh {SERVER} 'cd {PROD_DIR} && "`, the start of every remote command. */
  function RemotePrefix(dir: string, server: string, prodDir: string): string
  {
    LocalPrefix(dir) + "ssh " + server + " 'cd " + prodDir + " && "
  }

  /** `TAB1_COMMANDS`, in table order. */
  function Tab1Commands(dir: string): seq<Entry>
  {
    var cd := LocalPrefix(dir);
    [Entry("🤖 Bot", cd + "make bot"),
     Entry("🎨 Frontend", cd + "make frontend"),
     Entry("⚡ API", cd + "make api"),
     Entry("🌐 Tunnel", cd + "make tunnel"),
     Entry("🔔 Deploy", cd + "./scripts/deploy-watch.sh"),
     Entry("📊 DB Logs", cd + "./scripts/dx-db-logs.sh"),
     Entry("📋 Status", cd + "./scripts/dx-status.sh")]
  }

  /** `TAB2_COMMANDS`, in table order. */
  function Tab2Commands(dir: string, server: string, prodDir: string): seq<Entry>
  {
    var remote := RemotePrefix(dir, server, prodDir);
    [Entry("🤖 Prod Bot", remote + "./scripts/dx-logs.sh kinobot_bot'"),
     Entry("📊 Prod DB", remote + "./scripts/dx-logs.sh kinobot_db'"),
     Entry("⚡ Prod API", remote + "./scripts/dx-logs.sh kinobot_api'"),
     Entry("📋 Prod Status", remote + "./scripts/dx-prod-status.sh'")]
  }

  /**
   * The seven local commands all change to the project directory first;
   * the four production commands change to it, then run their command in
   * the production directory over ssh, closing the quote they opened.
   */
  lemma CommandShapes(dir: string, server: string, prodDir: string)
    ensures |Tab1Commands(dir)| == 7 && |Tab2Commands(dir, server, prodDir)| == 4
    ensures forall i :: 0 <= i < 7 ==> StartsWith(Tab1Commands(dir)[i].command, "cd '" + dir + "' && ")
    ensures forall i :: 0 <= i < 4 ==>
              var c := Tab2Commands(dir, server, prodDir)[i].command;
              && StartsWith(c, "cd '" + dir + "' && ssh " + server + " 'cd " + prodDir + " && ")
              && c[|c| - 1] == '\''
  {
    var cd := LocalPrefix(dir);
    var remote := RemotePrefix(dir, server, prodDir);
    assert remote == "cd '" + dir + "' && ssh " + server + " 'cd " + prodDir + " && ";
    forall i | 0 <= i < 7
      ensures StartsWith(Tab1Commands(dir)[i].command, cd)
    {
      var c := Tab1Commands(dir)[i].command;
      assert c == cd + c[|cd|..];
    }
    forall i | 0 <= i < 4
      ensures StartsWith(Tab2Commands(dir, server, prodDir)[i].command, remote)
    {
      var c := Tab2Commands(dir, server, prodDir)[i].command;
      assert c == remote + c[|remote|..];
    }
  }

  /** The three texts `restart_session` sends, in order. */
  function Sends(session: SessionId, command: string): seq<Sent>
  {
    [Sent(session, CTRL_C), Sent(session, "clear\n"), Sent(session, command + "\n")]
  }

  /** `restart_session`: Ctrl+C, `clear`, then the command; the first failing send ends the call with False. */
  function RestartOne(t: Terminal, session: SessionId, command: string): (Terminal, bool)
  {
    var (t1, ok1) := Send(t, session, CTRL_C);
    if !ok1 then (t1, false)
    else
      var (t2, ok2) := Send(t1, session, "clear\n");
      if !ok2 then (t2, false)
      else Send(t2, session, command + "\n")
  }

  /**
   * A restart appends a prefix of its three texts to the log: all three
   * exactly when none of its three calls fails, and otherwise only those
   * before the failing one, with no call made after it.
   */
  lemma RestartOneLog(t: Terminal, session: SessionId, command: string)
    ensures var r := RestartOne(t, session, command);
            var m := |r.0.log| - |t.log|;
            && Extends(t, r.0)
            && (r.1 <==> NoFailures(t.failures, 3))
            && (r.1 ==> m == 3 && r.0.failures == Drop(t.failures, 3))
            && (!r.1 ==> m < 3 && r.0.failures == Drop(t.failures, m + 1))
            && r.0.log[|t.log|..] == Sends(session, command)[..m]
  {
    var r := RestartOne(t, session, command);
    DropDrop(t.failures, 1, 1);
    DropDrop(t.failures, 2, 1);
    if r.1 {
      assert !NextFails(t.failures);
      assert !NextFails(Drop(t.failures, 1));
      assert !NextFails(Drop(t.failures, 2));
      forall i | 0 <= i < 3 && i < |t.failures|
        ensures !t.failures[i]
      {
        if i == 1 { assert Drop(t.failures, 1)[0] == t.failures[1]; }
        if i == 2 { assert Drop(t.failures, 2)[0] == t.failures[2]; }
      }
    } else if !NextFails(t.failures) {
      if NextFails(Drop(t.failures, 1)) {
        assert t.failures[1] == Drop(t.failures, 1)[0];
      } else {
        assert t.failures[2] == Drop(t.failures, 2)[0];
      }
    }
  }

  /** `restart_session(session, command, name)`. */
  method RestartSession(conn: Connection, session: SessionId, command: string) returns (ok: bool)
    modifies conn
    ensures (conn.State(), ok) == RestartOne(old(conn.State()), session, command)
  {
    ok := conn.SendText(session, CTRL_C);
    if !ok {
      return;
    }
    ok := conn.SendText(session, "clear\n");
    if !ok {
      return;
    }
    ok := conn.SendText(session, command + "\n");
  }

  /** One restart the loops perform: the session's position, its id, and the table entry it gets. */
  datatype Job = Job(tab: nat, index: nat, session: SessionId, name: string, command: string)

  /** `for i, session in enumerate(sessions): if i < len(table): …`, as the list of restarts. */
  function TabJobs(tab: nat, sessions: seq<Session>, table: seq<Entry>): seq<Job>
    decreases |sessions|
  {
    if sessions == [] then []
    else
      var k := |sessions| - 1;
      TabJobs(tab, sessions[..k], table)
      + (if k < |table| then [Job(tab, k, sessions[k].id, table[k].name, table[k].command)] else [])
  }

  function Min(a: nat, b: nat): nat
  {
    if a < b then a else b
  }

  /** The positional rule: session i gets entry i, for every i below both lengths, and no other session. */
  lemma {:induction false} TabJobsExact(tab: nat, sessions: seq<Session>, table: seq<Entry>)
    ensures |TabJobs(tab, sessions, table)| == Min(|sessions|, |table|)
    ensures forall i :: 0 <= i < |TabJobs(tab, sessions, table)| ==>
              TabJobs(tab, sessions, table)[i] == Job(tab, i, sessions[i].id, table[i].name, table[i].command)
    decreases |sessions|
  {
    if sessions != [] {
      var k := |sessions| - 1;
      TabJobsExact(tab, sessions[..k], table);
      assert forall m :: 0 <= m < k ==> sessions[..k][m] == sessions[m];
    }
  }

  /** The second tab is restarted only without `--local-only`/`--local`, and only if it exists. */
  predicate DoesProdTab(tabs: seq<Tab>, localOnly: bool)
  {
    !localOnly && |tabs| > 1
  }

  /** Every restart `main` performs, in order: the first tab, then perhaps the second. */
  function RestartPlan(tabs: seq<Tab>, localOnly: bool, dir: string, server: string, prodDir: string): seq<Job>
    requires |tabs| >= 1
  {
    TabJobs(0, tabs[0].sessions, Tab1Commands(dir))
    + (if DoesProdTab(tabs, localOnly) then TabJobs(1, tabs[1].sessions, Tab2Commands(dir, server, prodDir)) else [])
  }

  /**
   * Session i of the first tab gets local command i for i below
   * min(sessions, 7); after those, session i of the second tab gets
   * production command i for i below min(sessions, 4), and only when that
   * tab is processed. No other session, and no tab from index 2 on, is
   * ever touched.
   */
  lemma RestartPlanPositions(tabs: seq<Tab>, localOnly: bool, dir: string, server: string, prodDir: string)
    requires |tabs| >= 1
    ensures var plan := RestartPlan(tabs, localOnly, dir, server, prodDir);
            var n1 := Min(|tabs[0].sessions|, 7);
            && |plan| == n1 + (if DoesProdTab(tabs, localOnly) then Min(|tabs[1].sessions|, 4) else 0)
            && (forall i :: 0 <= i < n1 ==>
                  plan[i] == Job(0, i, tabs[0].sessions[i].id, Tab1Commands(dir)[i].name, Tab1Commands(dir)[i].command))
            && (forall i :: n1 <= i < |plan| ==>
                  && DoesProdTab(tabs, localOnly)
                  && plan[i] == Job(1, i - n1, tabs[1].sessions[i - n1].id,
                                    Tab2Commands(dir, server, prodDir)[i - n1].name,
                                    Tab2Commands(dir, server, prodDir)[i - n1].command))
            && (forall j :: j in plan ==> j.tab < 2)
  {
    RestartPlanFirstTab(tabs, localOnly, dir, server, prodDir);
    RestartPlanSecondTab(tabs, localOnly, dir, server, prodDir);
    RestartPlanTabs(tabs, localOnly, dir, server, prodDir);
  }

  /** The plan's length, and its first part: the first tab's jobs. */
  lemma RestartPlanFirstTab(tabs: seq<Tab>, localOnly: bool, dir: string, server: string, prodDir: string)
    requires |tabs| >= 1
    ensures var plan := RestartPlan(tabs, localOnly, dir, server, prodDir);
            var n1 := Min(|tabs[0].sessions|, 7);
            && |plan| == n1 + (if DoesProdTab(tabs, localOnly) then Min(|tabs[1].sessions|, 4) else 0)
            && forall i :: 0 <= i < n1 ==>
                 plan[i] == Job(0, i, tabs[0].sessions[i].id, Tab1Commands(dir)[i].name, Tab1Commands(dir)[i].command)
  {
    TabJobsExact(0, tabs[0].sessions, Tab1Commands(dir));
    if DoesProdTab(tabs, localOnly) {
      TabJobsExact(1, tabs[1].sessions, Tab2Commands(dir, server, prodDir));
    }
  }

  /** The plan's second part: the second tab's jobs, and only when that tab is processed. */
  lemma RestartPlanSecondTab(tabs: seq<Tab>, localOnly: bool, dir: string, server: string, prodDir: string)
    requires |tabs| >= 1
    ensures var plan := RestartPlan(tabs, localOnly, dir, server, prodDir);
            var n1 := Min(|tabs[0].sessions|, 7);
            && |plan| == n1 + (if DoesProdTab(tabs, localOnly) then Min(|tabs[1].sessions|, 4) else 0)
            && (forall i :: n1 <= i < |plan| ==>
                  && DoesProdTab(tabs, localOnly)
                  && plan[i] == Job(1, i - n1, tabs[1].sessions[i - n1].id,
                                    Tab2Commands(dir, server, prodDir)[i - n1].name,
                                    Tab2Commands(dir, server, prodDir)[i - n1].command))
  {
    TabJobsExact(0, tabs[0].sessions, Tab1Commands(dir));
    if DoesProdTab(tabs, localOnly) {
      TabJobsExact(1, tabs[1].sessions, Tab2Commands(dir, server, prodDir));
    }
  }

  /** Every job of a tab lies in that tab. */
  lemma {:induction false} TabJobsInTab(tab: nat, sessions: seq<Session>, table: seq<Entry>)
    ensures forall j :: j in TabJobs(tab, sessions, table) ==> j.tab == tab
    decreases |sessions|
  {
    if sessions != [] {
      TabJobsInTab(tab, sessions[..|sessions| - 1], table);
    }
  }

  /** No tab from index 2 on is in the plan. */
  lemma RestartPlanTabs(tabs: seq<Tab>, localOnly: bool, dir: string, server: string, prodDir: string)
    requires |tabs| >= 1
    ensures forall j :: j in RestartPlan(tabs, localOnly, dir, server, prodDir) ==> j.tab < 2
  {
    TabJobsInTab(0, tabs[0].sessions, Tab1Commands(dir));
    if DoesProdTab(tabs, localOnly) {
      TabJobsInTab(1, tabs[1].sessions, Tab2Commands(dir, server, prodDir));
    }
  }

  /** `restart_session` for every job in order; the count is the number of calls that returned True. */
  function RestartAll(t0: Terminal, jobs: seq<Job>): Progress
    decreases |jobs|
  {
    if jobs == [] then Progress(t0, 0)
    else
      var p := RestartAll(t0, jobs[..|jobs| - 1]);
      var last := jobs[|jobs| - 1];
      var (t, ok) := RestartOne(p.term, last.session, last.command);
      Progress(t, if ok then p.count + 1 else p.count)
  }

  /** The three texts of every job, in order. */
  function AllSends(jobs: seq<Job>): seq<Sent>
    decreases |jobs|
  {
    if jobs == [] then []
    else AllSends(jobs[..|jobs| - 1]) + Sends(jobs[|jobs| - 1].session, jobs[|jobs| - 1].command)
  }

  /**
   * `restarted` counts the successful restarts and never exceeds the jobs;
   * each successful restart adds three texts and each failed one fewer
   * than three, and every text goes to a session of the plan.
   */
  lemma {:induction false} RestartAllLog(t0: Terminal, jobs: seq<Job>)
    ensures var p := RestartAll(t0, jobs);
            var added := |p.term.log| - |t0.log|;
            && p.count <= |jobs|
            && Extends(t0, p.term)
            && 3 * p.count <= added <= 3 * p.count + 2 * (|jobs| - p.count)
            && forall i :: |t0.log| <= i < |p.term.log| ==>
                 exists j :: j in jobs && p.term.log[i].session == j.session
    decreases |jobs|
  {
    if jobs != [] {
      var n := |jobs| - 1;
      var init := jobs[..n];
      var last := jobs[n];
      RestartAllLog(t0, init);
      var p := RestartAll(t0, init);
      RestartOneLog(p.term, last.session, last.command);
      var r := RestartOne(p.term, last.session, last.command);
      assert RestartAll(t0, jobs) == Progress(r.0, if r.1 then p.count + 1 else p.count);
      ExtendsTransitive(t0, p.term, r.0);
      var m := |r.0.log| - |p.term.log|;
      forall i | |t0.log| <= i < |r.0.log|
        ensures exists j :: j in jobs && r.0.log[i].session == j.session
      {
        if i < |p.term.log| {
          var j :| j in init && p.term.log[i].session == j.session;
          assert j in jobs;
        } else {
          assert r.0.log[i] == r.0.log[|p.term.log|..][i - |p.term.log|];
          assert r.0.log[i].session == last.session;
          assert last in jobs;
        }
      }
    }
  }

  /** With no failing call, every job's three texts arrive, in order, and every job counts. */
  lemma {:induction false} RestartAllNoFailures(t0: Terminal, jobs: seq<Job>)
    requires NoFailures(t0.failures, 3 * |jobs|)
    ensures RestartAll(t0, jobs).count == |jobs|
    ensures RestartAll(t0, jobs).term.log == t0.log + AllSends(jobs)
    ensures RestartAll(t0, jobs).term.failures == Drop(t0.failures, 3 * |jobs|)
    decreases |jobs|
  {
    if jobs != [] {
      var n := |jobs| - 1;
      var init := jobs[..n];
      var last := jobs[n];
      NoFailuresSplit(t0.failures, 3 * n, 3);
      DropDrop(t0.failures, 3 * n, 3);
      RestartAllNoFailures(t0, init);
      var p := RestartAll(t0, init);
      RestartOneLog(p.term, last.session, last.command);
      var r := RestartOne(p.term, last.session, last.command);
      assert RestartAll(t0, jobs) == Progress(r.0, if r.1 then p.count + 1 else p.count);
      assert r.0.log == p.term.log + Sends(last.session, last.command);
      assert AllSends(jobs) == AllSends(init) + Sends(last.session, last.command);
      ConcatAssoc(t0.log, AllSends(init), Sends(last.session, last.command));
    }
  }

  /** `find_dev_window`: the first window of the dev shape. */
  method FindDevWindow(app: seq<Window>) returns (r: Option<nat>)
    ensures r == FindFirst(app, HasDevShape)
  {
    var w := 0;
    while w < |app|
      invariant 0 <= w <= |app|
      invariant forall j :: 0 <= j < w ==> !HasDevShape(app[j])
    {
      if |app[w].tabs| >= 2 {
        if |app[w].tabs[0].sessions| >= 4 {
          FirstMatch(app, HasDevShape, w);
          return Some(w);
        }
      }
      w := w + 1;
    }
    return None;
  }

  lemma TabJobsStep(before: seq<Job>, tab: nat, sessions: seq<Session>, table: seq<Entry>, k: nat)
    requires k < |sessions|
    ensures before + TabJobs(tab, sessions[..k + 1], table) ==
            before + TabJobs(tab, sessions[..k], table)
            + (if k < |table| then [Job(tab, k, sessions[k].id, table[k].name, table[k].command)] else [])
  {
    assert sessions[..k + 1][..k] == sessions[..k];
    var step := if k < |table| then [Job(tab, k, sessions[k].id, table[k].name, table[k].command)] else [];
    assert TabJobs(tab, sessions[..k + 1], table) == TabJobs(tab, sessions[..k], table) + step;
    ConcatAssoc(before, TabJobs(tab, sessions[..k], table), step);
  }

  lemma RestartAllStep(t0: Terminal, done: seq<Job>, job: Job)
    ensures var p := RestartAll(t0, done);
            var (t, ok) := RestartOne(p.term, job.session, job.command);
            RestartAll(t0, done + [job]) == Progress(t, if ok then p.count + 1 else p.count)
  {
    assert (done + [job])[..|done|] == done;
  }

  /**
   * Position `i` of a tab: the session there is restarted with entry `i` of
   * the table when the table has one, and left alone otherwise.
   */
  method RestartPosition(conn: Connection, ghost start: Terminal, ghost before: seq<Job>,
                         tab: nat, sessions: seq<Session>, table: seq<Entry>, i: nat, restarted0: nat)
    returns (restarted: nat)
    modifies conn
    requires i < |sessions|
    requires Progress(conn.State(), restarted0) == RestartAll(start, before + TabJobs(tab, sessions[..i], table))
    ensures Progress(conn.State(), restarted) == RestartAll(start, before + TabJobs(tab, sessions[..i + 1], table))
  {
    TabJobsStep(before, tab, sessions, table, i);
    ghost var done := before + TabJobs(tab, sessions[..i], table);
    if i < |table| {
      var job := Job(tab, i, sessions[i].id, table[i].name, table[i].command);
      RestartAllStep(start, done, job);
      var ok := RestartSession(conn, job.session, job.command);
      restarted := if ok then restarted0 + 1 else restarted0;
    } else {
      assert done + [] == done;
      restarted := restarted0;
    }
  }

  /**
   * One of `main`'s two loops: session i of the tab is restarted with
   * entry i of the table while i is below the table's length, and
   * `restarted` counts the successes. The progress so far, from the
   * terminal `start`, is that of `before`.
   */
  method RestartTab(conn: Connection, ghost start: Terminal, ghost before: seq<Job>,
                    tab: nat, sessions: seq<Session>, table: seq<Entry>, restarted0: nat)
    returns (restarted: nat)
    modifies conn
    requires Progress(conn.State(), restarted0) == RestartAll(start, before)
    ensures Progress(conn.State(), restarted) == RestartAll(start, before + TabJobs(tab, sessions, table))
  {
    restarted := restarted0;
    var i := 0;
    assert sessions[..0] == [] && before + [] == before;
    while i < |sessions|
      invariant 0 <= i <= |sessions|
      invariant Progress(conn.State(), restarted) == RestartAll(start, before + TabJobs(tab, sessions[..i], table))
    {
      restarted := RestartPosition(conn, start, before, tab, sessions, table, i, restarted);
      i := i + 1;
    }
    assert sessions[..i] == sessions;
  }

  /**
   * `main(connection)`: without a window of the dev shape nothing is sent;
   * otherwise the first tab's sessions are restarted with the local table,
   * then, unless `--local-only`/`--local`, the second tab's with the
   * production table, and `restarted` is the count `RestartAll` gives.
   * The commands start from `PROJECT_DIR` as line 27 computes it, so a
   * leading flag is taken for the directory (see `ProjectDir` for the
   * corrected choice).
   */
  method RestartDevEnvironment(conn: Connection, app: seq<Window>, argv: seq<string>,
                               cwd: string, server: string, prodDir: string)
    returns (found: bool, restarted: nat)
    modifies conn
    ensures found <==> FindFirst(app, HasDevShape).Some?
    ensures !found ==> conn.State() == old(conn.State()) && restarted == 0
    ensures found ==>
              var tabs := app[FindFirst(app, HasDevShape).value].tabs;
              && |tabs| >= 2
              && Progress(conn.State(), restarted) ==
                 RestartAll(old(conn.State()), RestartPlan(tabs, LocalOnly(argv), ProjectDirAsWritten(argv, cwd), server, prodDir))
  {
    var window := FindDevWindow(app);
    if window.None? {
      return false, 0;
    }
    found := true;
    var tabs := app[window.value].tabs;
    var localOnly := LocalOnly(argv);
    var dir := ProjectDirAsWritten(argv, cwd);
    var table1 := Tab1Commands(dir);
    ghost var start := conn.State();
    ghost var jobs1 := TabJobs(0, tabs[0].sessions, table1);
    restarted := RestartTab(conn, start, [], 0, tabs[0].sessions, table1, 0);
    assert [] + jobs1 == jobs1;
    if !localOnly && |tabs| > 1 {
      var table2 := Tab2Commands(dir, server, prodDir);
      restarted := RestartTab(conn, start, jobs1, 1, tabs[1].sessions, table2, restarted);
    } else {
      assert jobs1 + [] == jobs1;
    }
  }
}

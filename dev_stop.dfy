/**
 * `templates/shell/dev-stop.py`: find the dev window and send Ctrl+C to
 * every session whose name shows a dev process, skipping the production
 * monitoring tab (index 1) under `--local-only` or `--local`.
 */
module DevStop {
  import opened Optional
  import opened Strings
  import opened Iterm

  /** Process names iTerm2 shows in a session name while a dev process runs. */
  const DEV_PATTERNS: seq<string> :=
    ["(bot)", "(api)", "(docker-compose)", "(node)", "(docker)", "(bash)", "(ssh)", "(sleep)"]

  const BOT: string := "🤖 Bot"
  const API: string := "⚡ API"
  const DB_LOGS: string := "📊 DB Logs"
  const FRONTEND: string := "🎨 Frontend"
  const STATUS: string := "📋 Status"
  const DEPLOY: string := "🔔 Deploy"
  const SSH: string := "🌐 SSH"
  const PROD_MONITOR: string := "🌐 Prod Monitor"

  /** `any(pattern in name for pattern in DEV_PATTERNS)`. */
  predicate MatchesPattern(name: string)
  {
    exists i :: 0 <= i < |DEV_PATTERNS| && Contains(name, DEV_PATTERNS[i])
  }

  /** A session that is stopped: it has a non-empty name showing a dev process. */
  predicate IsDevName(name: Option<string>)
  {
    name.Some? && name.value != "" && MatchesPattern(name.value)
  }

  /** The label printed for a stopped session: the first branch of the chain that matches. */
  function Label(name: string, prodTab: bool): string
  {
    if Contains(name, "(bot)") then BOT
    else if Contains(name, "(api)") then API
    else if Contains(name, "(docker-compose)") then DB_LOGS
    else if Contains(name, "(node)") then FRONTEND
    else if Contains(name, "(docker)") && !Contains(name, "(docker-compose)") then STATUS
    else if Contains(name, "(bash)") then DEPLOY
    else if Contains(name, "(sleep)") then DEPLOY
    else if Contains(name, "(ssh)") then (if !prodTab then SSH else PROD_MONITOR)
    else name
  }

  /** The labels the chain assigns to a dev session. */
  predicate IsFixedLabel(display: string)
  {
    display in {BOT, API, DB_LOGS, FRONTEND, STATUS, DEPLOY, SSH, PROD_MONITOR}
  }

  /**
   * First match wins: "(bot)" beats every other pattern in every tab; a
   * name whose only pattern is "(ssh)" is the production monitor in tab 1
   * and plain SSH elsewhere; and once "(docker)" is reached, the
   * "(docker-compose)" guard always holds, because that case was taken
   * two branches earlier.
   */
  lemma LabelPrecedence(name: string, prodTab: bool)
    ensures Contains(name, "(bot)") ==> Label(name, prodTab) == BOT
    ensures Contains(name, "(ssh)") && !Contains(name, "(bot)") && !Contains(name, "(api)")
            && !Contains(name, "(docker-compose)") && !Contains(name, "(node)") && !Contains(name, "(docker)")
            && !Contains(name, "(bash)") && !Contains(name, "(sleep)") ==>
              Label(name, prodTab) == if prodTab then PROD_MONITOR else SSH
    ensures !Contains(name, "(bot)") && !Contains(name, "(api)") && !Contains(name, "(docker-compose)")
            && !Contains(name, "(node)") && Contains(name, "(docker)") ==>
              Label(name, prodTab) == STATUS
  {
  }

  /** Every dev session gets one of the fixed labels: the fall-back `display_name = name` is never taken. */
  lemma DevLabelIsFixed(name: string, prodTab: bool)
    requires MatchesPattern(name)
    ensures IsFixedLabel(Label(name, prodTab))
  {
    var i :| 0 <= i < |DEV_PATTERNS| && Contains(name, DEV_PATTERNS[i]);
    assert Contains(name, DEV_PATTERNS[i]);
  }

  /** Some session of the window has a dev name. */
  predicate HasDevSession(w: Window)
  {
    exists t, k :: 0 <= t < |w.tabs| && 0 <= k < |w.tabs[t].sessions| && IsDevName(w.tabs[t].sessions[k].name)
  }

  /**
   * `find_dev_window`: the first window with a dev session, and only when
   * there is none the first window of the dev shape.
   */
  function LocateForStop(app: seq<Window>): Option<nat>
  {
    var byName := FindFirst(app, HasDevSession);
    if byName.Some? then byName else FindFirst(app, HasDevShape)
  }

  /** One stopped session: its position, its id and the label printed for it. */
  datatype Visit = Visit(tab: nat, index: nat, session: SessionId, display: string)

  /** The dev sessions of one tab, in order. */
  function TabVisits(tab: nat, sessions: seq<Session>): seq<Visit>
    decreases |sessions|
  {
    if sessions == [] then []
    else
      var k := |sessions| - 1;
      var s := sessions[k];
      TabVisits(tab, sessions[..k])
      + (if IsDevName(s.name) then [Visit(tab, k, s.id, Label(s.name.value, tab == 1))] else [])
  }

  /** Tab 1 is left alone under `--local-only`. */
  predicate Skipped(tab: nat, localOnly: bool)
  {
    tab == 1 && localOnly
  }

  /** The sessions `main` stops, tab by tab and session by session. */
  function WindowVisits(tabs: seq<Tab>, localOnly: bool): seq<Visit>
    decreases |tabs|
  {
    if tabs == [] then []
    else
      var t := |tabs| - 1;
      WindowVisits(tabs[..t], localOnly) + (if Skipped(t, localOnly) then [] else TabVisits(t, tabs[t].sessions))
  }

  /** `stop_session` for every visit in order; the count is the number of calls that returned True. */
  function StopAll(t0: Terminal, visits: seq<Visit>): Progress
    decreases |visits|
  {
    if visits == [] then Progress(t0, 0)
    else
      var p := StopAll(t0, visits[..|visits| - 1]);
      var (t, ok) := Send(p.term, visits[|visits| - 1].session, CTRL_C);
      Progress(t, if ok then p.count + 1 else p.count)
  }

  /** A visit records a dev session at its position in the window, with the label the chain gives it. */
  predicate VisitMatches(tabs: seq<Tab>, v: Visit)
  {
    && v.tab < |tabs| && v.index < |tabs[v.tab].sessions|
    && var s := tabs[v.tab].sessions[v.index];
    && v.session == s.id && IsDevName(s.name) && v.display == Label(s.name.value, v.tab == 1)
  }

  /** Visits come in window order: by tab, then by position in the tab. */
  predicate Before(a: Visit, b: Visit)
  {
    a.tab < b.tab || (a.tab == b.tab && a.index < b.index)
  }

  /** Positions strictly increase along a tab's visits. */
  predicate Ascending(vs: seq<Visit>)
  {
    forall i, j :: 0 <= i < j < |vs| ==> vs[i].index < vs[j].index
  }

  /** Visits strictly increase in window order, so none repeats. */
  predicate InWindowOrder(vs: seq<Visit>)
  {
    forall i, j :: 0 <= i < j < |vs| ==> Before(vs[i], vs[j])
  }

  /** A tab's visits lie in that tab, in increasing position. */
  lemma {:induction false} TabVisitsOrdered(tab: nat, sessions: seq<Session>)
    ensures forall v :: v in TabVisits(tab, sessions) ==> v.tab == tab && v.index < |sessions|
    ensures Ascending(TabVisits(tab, sessions))
    decreases |sessions|
  {
    if sessions != [] {
      var k := |sessions| - 1;
      TabVisitsOrdered(tab, sessions[..k]);
      var head := TabVisits(tab, sessions[..k]);
      var s := sessions[k];
      var tail := if IsDevName(s.name) then [Visit(tab, k, s.id, Label(s.name.value, tab == 1))] else [];
      var vs := TabVisits(tab, sessions);
      assert vs == head + tail;
      assert forall i :: 0 <= i < |head| ==> head[i] in head && head[i].index < k;
      forall i, j | 0 <= i < j < |vs|
        ensures vs[i].index < vs[j].index
      {
        if j < |head| {
          assert vs[i] == head[i] && vs[j] == head[j];
          assert head[i].index < head[j].index;
        } else {
          assert i < |head|;
          assert vs[i] == head[i] && vs[j] == tail[0];
          assert head[i].index < k;
          assert tail[0].index == k;
        }
      }
    }
  }

  /** Each visit of a tab is one of its dev sessions, under the chain's label. */
  lemma {:induction false} TabVisitsSound(tab: nat, sessions: seq<Session>)
    ensures forall v :: v in TabVisits(tab, sessions) ==>
              && v.tab == tab && v.index < |sessions| && v.session == sessions[v.index].id
              && IsDevName(sessions[v.index].name) && v.display == Label(sessions[v.index].name.value, tab == 1)
    decreases |sessions|
  {
    if sessions != [] {
      var k := |sessions| - 1;
      TabVisitsSound(tab, sessions[..k]);
      assert forall m :: 0 <= m < k ==> sessions[..k][m] == sessions[m];
    }
  }

  /** Each dev session of a tab is visited. */
  lemma {:induction false} TabVisitsComplete(tab: nat, sessions: seq<Session>)
    ensures forall k :: 0 <= k < |sessions| && IsDevName(sessions[k].name) ==>
              Visit(tab, k, sessions[k].id, Label(sessions[k].name.value, tab == 1)) in TabVisits(tab, sessions)
    decreases |sessions|
  {
    if sessions != [] {
      var k := |sessions| - 1;
      TabVisitsComplete(tab, sessions[..k]);
      assert forall m :: 0 <= m < k ==> sessions[..k][m] == sessions[m];
    }
  }

  /** Visits of earlier tabs read the same in a longer window. */
  lemma VisitMatchesPrefix(tabs: seq<Tab>, t: nat, v: Visit)
    requires t <= |tabs| && v.tab < t
    ensures VisitMatches(tabs[..t], v) == VisitMatches(tabs, v)
  {
    assert tabs[..t][v.tab] == tabs[v.tab];
  }

  /** Every session `main` stops is a dev session of a tab that is not skipped, under the chain's label. */
  lemma {:induction false} WindowVisitsSound(tabs: seq<Tab>, localOnly: bool)
    ensures forall v :: v in WindowVisits(tabs, localOnly) ==> VisitMatches(tabs, v) && !Skipped(v.tab, localOnly)
    decreases |tabs|
  {
    if tabs != [] {
      var t := |tabs| - 1;
      WindowVisitsSound(tabs[..t], localOnly);
      TabVisitsSound(t, tabs[t].sessions);
      forall v | v in WindowVisits(tabs[..t], localOnly)
        ensures VisitMatches(tabs, v)
      {
        VisitMatchesPrefix(tabs, t, v);
      }
    }
  }

  /**
   * `main` stops every dev session of every tab that is not skipped: under
   * `--local-only` only tab 1 is left out, tabs 0 and 2 on are still stopped.
   */
  lemma {:induction false} WindowVisitsComplete(tabs: seq<Tab>, localOnly: bool)
    ensures forall t, k :: 0 <= t < |tabs| && 0 <= k < |tabs[t].sessions| && !Skipped(t, localOnly)
                           && IsDevName(tabs[t].sessions[k].name) ==>
              Visit(t, k, tabs[t].sessions[k].id, Label(tabs[t].sessions[k].name.value, t == 1))
                in WindowVisits(tabs, localOnly)
    decreases |tabs|
  {
    if tabs != [] {
      var last := |tabs| - 1;
      var prefix := tabs[..last];
      WindowVisitsComplete(prefix, localOnly);
      TabVisitsComplete(last, tabs[last].sessions);
      var head := WindowVisits(prefix, localOnly);
      var tail := if Skipped(last, localOnly) then [] else TabVisits(last, tabs[last].sessions);
      assert WindowVisits(tabs, localOnly) == head + tail;
      forall t, k | 0 <= t < |tabs| && 0 <= k < |tabs[t].sessions| && !Skipped(t, localOnly)
                    && IsDevName(tabs[t].sessions[k].name)
        ensures Visit(t, k, tabs[t].sessions[k].id, Label(tabs[t].sessions[k].name.value, t == 1)) in head + tail
      {
        if t < last {
          assert prefix[t] == tabs[t];
          assert Visit(t, k, prefix[t].sessions[k].id, Label(prefix[t].sessions[k].name.value, t == 1)) in head;
        } else {
          assert Visit(t, k, tabs[t].sessions[k].id, Label(tabs[t].sessions[k].name.value, t == 1)) in tail;
        }
      }
    }
  }

  /** Sessions are stopped in window order, so none is stopped twice. */
  lemma {:induction false} WindowVisitsOrdered(tabs: seq<Tab>, localOnly: bool)
    ensures forall v :: v in WindowVisits(tabs, localOnly) ==> v.tab < |tabs|
    ensures InWindowOrder(WindowVisits(tabs, localOnly))
    decreases |tabs|
  {
    if tabs != [] {
      var t := |tabs| - 1;
      WindowVisitsOrdered(tabs[..t], localOnly);
      TabVisitsOrdered(t, tabs[t].sessions);
      var head := WindowVisits(tabs[..t], localOnly);
      var tail := if Skipped(t, localOnly) then [] else TabVisits(t, tabs[t].sessions);
      assert WindowVisits(tabs, localOnly) == head + tail;
      OrderedAppend(head, tail, t);
    }
  }

  /** Visits in window order, followed by one later tab's visits in increasing position, stay in window order. */
  lemma OrderedAppend(head: seq<Visit>, tail: seq<Visit>, t: nat)
    requires InWindowOrder(head) && forall v :: v in head ==> v.tab < t
    requires Ascending(tail) && forall v :: v in tail ==> v.tab == t
    ensures InWindowOrder(head + tail)
  {
    var vs := head + tail;
    forall i, j | 0 <= i < j < |vs|
      ensures Before(vs[i], vs[j])
    {
      if j < |head| {
        assert vs[i] == head[i] && vs[j] == head[j];
      } else if i < |head| {
        assert vs[i] == head[i] && head[i] in head;
        assert vs[j] == tail[j - |head|] && tail[j - |head|] in tail;
      } else {
        assert vs[i] == tail[i - |head|] && tail[i - |head|] in tail;
        assert vs[j] == tail[j - |head|] && tail[j - |head|] in tail;
      }
    }
  }

  /**
   * Stopping sends exactly one Ctrl+C per successful `stop_session` and
   * nothing else; a failed send is skipped and the loop carries on, so
   * `stopped` counts the successes and never exceeds the visits.
   */
  lemma {:induction false} StopAllLog(t0: Terminal, visits: seq<Visit>)
    ensures var p := StopAll(t0, visits);
            && p.count <= |visits|
            && Extends(t0, p.term)
            && |p.term.log| == |t0.log| + p.count
            && p.term.failures == Drop(t0.failures, |visits|)
            && forall i :: |t0.log| <= i < |p.term.log| ==>
                 exists v :: v in visits && p.term.log[i] == Sent(v.session, CTRL_C)
    decreases |visits|
  {
    if visits != [] {
      var n := |visits| - 1;
      var init := visits[..n];
      StopAllLog(t0, init);
      var p := StopAll(t0, init);
      var last := visits[n];
      var r := Send(p.term, last.session, CTRL_C);
      var q := StopAll(t0, visits);
      assert q == Progress(r.0, if r.1 then p.count + 1 else p.count);
      DropDrop(t0.failures, n, 1);
      assert r.0.log[..|p.term.log|] == p.term.log;
      ExtendsTransitive(t0, p.term, r.0);
      forall i | |t0.log| <= i < |q.term.log|
        ensures exists v :: v in visits && q.term.log[i] == Sent(v.session, CTRL_C)
      {
        if i < |p.term.log| {
          var v :| v in init && p.term.log[i] == Sent(v.session, CTRL_C);
          assert v in visits;
        } else {
          assert q.term.log[i] == Sent(last.session, CTRL_C);
          assert last in visits;
        }
      }
    }
  }

  /** With no failing call every visited session, in order, receives Ctrl+C, and every visit is counted. */
  lemma {:induction false} StopAllNoFailures(t0: Terminal, visits: seq<Visit>)
    requires NoFailures(t0.failures, |visits|)
    ensures StopAll(t0, visits).count == |visits|
    ensures StopAll(t0, visits).term.log ==
            t0.log + seq(|visits|, i requires 0 <= i < |visits| => Sent(visits[i].session, CTRL_C))
    decreases |visits|
  {
    if visits != [] {
      var n := |visits| - 1;
      var init := visits[..n];
      var last := visits[n];
      NoFailuresSplit(t0.failures, n, 1);
      StopAllNoFailures(t0, init);
      StopAllLog(t0, init);
      var p := StopAll(t0, init);
      assert !NextFails(p.term.failures);
      var r := Send(p.term, last.session, CTRL_C);
      assert StopAll(t0, visits) == Progress(r.0, p.count + 1);
      var before := seq(n, i requires 0 <= i < n => Sent(init[i].session, CTRL_C));
      assert seq(|visits|, i requires 0 <= i < |visits| => Sent(visits[i].session, CTRL_C))
          == before + [Sent(last.session, CTRL_C)];
      ConcatAssoc(t0.log, before, [Sent(last.session, CTRL_C)]);
    }
  }

  /** `find_dev_window`, loop for loop: by name first, then by shape. */
  method FindDevWindow(app: seq<Window>) returns (r: Option<nat>)
    ensures r == LocateForStop(app)
  {
    var w := 0;
    while w < |app|
      invariant 0 <= w <= |app|
      invariant forall j :: 0 <= j < w ==> !HasDevSession(app[j])
    {
      var tabs := app[w].tabs;
      var t := 0;
      while t < |tabs|
        invariant 0 <= t <= |tabs|
        invariant forall t', k :: 0 <= t' < t && 0 <= k < |tabs[t'].sessions| ==> !IsDevName(tabs[t'].sessions[k].name)
      {
        var sessions := tabs[t].sessions;
        var k := 0;
        while k < |sessions|
          invariant 0 <= k <= |sessions|
          invariant forall k' :: 0 <= k' < k ==> !IsDevName(sessions[k'].name)
        {
          var name := sessions[k].name;
          if name.Some? && name.value != "" {
            var p := 0;
            while p < |DEV_PATTERNS|
              invariant 0 <= p <= |DEV_PATTERNS|
              invariant forall p' :: 0 <= p' < p ==> !Contains(name.value, DEV_PATTERNS[p'])
            {
              if Contains(name.value, DEV_PATTERNS[p]) {
                assert IsDevName(app[w].tabs[t].sessions[k].name);
                FirstMatch(app, HasDevSession, w);
                return Some(w);
              }
              p := p + 1;
            }
          }
          k := k + 1;
        }
        t := t + 1;
      }
      w := w + 1;
    }
    w := 0;
    while w < |app|
      invariant 0 <= w <= |app|
      invariant forall j :: 0 <= j < w ==> !HasDevShape(app[j])
    {
      if |app[w].tabs| >= 2 && |app[w].tabs[0].sessions| >= 4 {
        FirstMatch(app, HasDevShape, w);
        return Some(w);
      }
      w := w + 1;
    }
    return None;
  }

  lemma WindowVisitsStep(tabs: seq<Tab>, t: nat, localOnly: bool)
    requires t < |tabs|
    ensures WindowVisits(tabs[..t + 1], localOnly) ==
            WindowVisits(tabs[..t], localOnly) + (if Skipped(t, localOnly) then [] else TabVisits(t, tabs[t].sessions))
  {
    assert tabs[..t + 1][..t] == tabs[..t];
  }

  lemma TabVisitsStep(tab: nat, sessions: seq<Session>, k: nat)
    requires k < |sessions|
    ensures var s := sessions[k];
            TabVisits(tab, sessions[..k + 1]) ==
            TabVisits(tab, sessions[..k]) + (if IsDevName(s.name) then [Visit(tab, k, s.id, Label(s.name.value, tab == 1))] else [])
  {
    assert sessions[..k + 1][..k] == sessions[..k];
  }

  lemma StopAllStep(t0: Terminal, done: seq<Visit>, v: Visit)
    ensures var p := StopAll(t0, done);
            var (t, ok) := Send(p.term, v.session, CTRL_C);
            StopAll(t0, done + [v]) == Progress(t, if ok then p.count + 1 else p.count)
  {
    assert (done + [v])[..|done|] == done;
  }

  /** `stop_session(session, name)`: one Ctrl+C; False where the send raises. */
  method StopSession(conn: Connection, session: SessionId) returns (ok: bool)
    modifies conn
    ensures (conn.State(), ok) == Send(old(conn.State()), session, CTRL_C)
  {
    ok := conn.SendText(session, CTRL_C);
  }

  /**
   * The inner loop of `main`, over one tab's sessions: every dev session
   * gets `stop_session` in order and `stopped` counts the successes. The
   * progress so far, from the terminal `start`, is that of `before`.
   */
  method StopTab(conn: Connection, ghost start: Terminal, ghost before: seq<Visit>,
                 t: nat, sessions: seq<Session>, stopped0: nat) returns (stopped: nat)
    modifies conn
    requires Progress(conn.State(), stopped0) == StopAll(start, before)
    ensures Progress(conn.State(), stopped) == StopAll(start, before + TabVisits(t, sessions))
  {
    stopped := stopped0;
    var k := 0;
    assert sessions[..0] == [] && before + [] == before;
    while k < |sessions|
      invariant 0 <= k <= |sessions|
      invariant Progress(conn.State(), stopped) == StopAll(start, before + TabVisits(t, sessions[..k]))
    {
      var s := sessions[k];
      TabVisitsStep(t, sessions, k);
      ghost var done := before + TabVisits(t, sessions[..k]);
      if IsDevName(s.name) {
        var display := Label(s.name.value, t == 1);
        ghost var v := Visit(t, k, s.id, display);
        ConcatAssoc(before, TabVisits(t, sessions[..k]), [v]);
        StopAllStep(start, done, v);
        var ok := StopSession(conn, s.id);
        if ok {
          stopped := stopped + 1;
        }
      } else {
        assert before + TabVisits(t, sessions[..k + 1]) == done;
      }
      k := k + 1;
    }
    assert sessions[..k] == sessions;
  }

  /**
   * The outer loop of `main`, over the dev window's tabs: every tab but a
   * skipped one goes through `StopTab`.
   */
  method StopWindow(conn: Connection, tabs: seq<Tab>, localOnly: bool) returns (stopped: nat)
    modifies conn
    ensures Progress(conn.State(), stopped) == StopAll(old(conn.State()), WindowVisits(tabs, localOnly))
  {
    stopped := 0;
    var t := 0;
    assert tabs[..0] == [];
    while t < |tabs|
      invariant 0 <= t <= |tabs|
      invariant Progress(conn.State(), stopped) == StopAll(old(conn.State()), WindowVisits(tabs[..t], localOnly))
    {
      WindowVisitsStep(tabs, t, localOnly);
      if !(t == 1 && localOnly) {
        stopped := StopTab(conn, old(conn.State()), WindowVisits(tabs[..t], localOnly), t, tabs[t].sessions, stopped);
      } else {
        assert WindowVisits(tabs[..t], localOnly) + [] == WindowVisits(tabs[..t], localOnly);
      }
      t := t + 1;
    }
    assert tabs[..t] == tabs;
  }

  /**
   * `main(connection)`: without a dev window nothing is sent; otherwise
   * the window's sessions are stopped as `StopWindow` describes.
   */
  method StopDevEnvironment(conn: Connection, app: seq<Window>, argv: seq<string>)
    returns (found: bool, stopped: nat)
    modifies conn
    ensures found <==> LocateForStop(app).Some?
    ensures !found ==> conn.State() == old(conn.State()) && stopped == 0
    ensures found ==>
              Progress(conn.State(), stopped) ==
              StopAll(old(conn.State()), WindowVisits(app[LocateForStop(app).value].tabs, LocalOnly(argv)))
  {
    var window := FindDevWindow(app);
    if window.None? {
      return false, 0;
    }
    found := true;
    stopped := StopWindow(conn, app[window.value].tabs, LocalOnly(argv));
  }
}

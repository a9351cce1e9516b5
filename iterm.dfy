/**
 * The part of the iTerm2 scripting API that `dev-stop.py` and
 * `dev-restart.py` use. Windows hold tabs, tabs hold sessions (panes), and
 * a session has an id and perhaps a name (its `name` variable, read once and
 * taken as given). Sending text to a session appends to an ordered log of
 * everything sent; a send may fail, and which calls fail is fixed in advance
 * by a script of booleans, one per call, so the environment stays a value.
 */
module Iterm {
  import opened Optional

  type SessionId = nat

  datatype Session = Session(id: SessionId, name: Option<string>)
  datatype Tab = Tab(sessions: seq<Session>)
  datatype Window = Window(tabs: seq<Tab>)

  /** One successful `async_send_text(text)` to a session. */
  datatype Sent = Sent(session: SessionId, text: string)

  /** What has been sent so far, and whether each of the coming calls fails (missing entries succeed). */
  datatype Terminal = Terminal(log: seq<Sent>, failures: seq<bool>)

  /** The terminal after a loop over sessions, and how many of them the loop counted as done. */
  datatype Progress = Progress(term: Terminal, count: nat)

  /** Ctrl+C, the interrupt character both scripts send first. */
  const CTRL_C: string := "\U{3}"

  /** The failure script once `n` calls have used it up. */
  function Drop(failures: seq<bool>, n: nat): seq<bool>
  {
    if n >= |failures| then [] else failures[n..]
  }

  /** The next call fails. */
  predicate NextFails(failures: seq<bool>)
  {
    |failures| > 0 && failures[0]
  }

  /** None of the next `n` calls fails. */
  predicate NoFailures(failures: seq<bool>, n: nat)
  {
    forall i :: 0 <= i < n && i < |failures| ==> !failures[i]
  }

  /** `session.async_send_text(text)`: it either reaches the session or raises, and uses up one script entry. */
  function Send(t: Terminal, session: SessionId, text: string): (Terminal, bool)
  {
    if NextFails(t.failures) then (Terminal(t.log, Drop(t.failures, 1)), false)
    else (Terminal(t.log + [Sent(session, text)], Drop(t.failures, 1)), true)
  }

  /** `t1` was reached from `t0` by sending more: the old log is kept as a prefix. */
  predicate Extends(t0: Terminal, t1: Terminal)
  {
    |t0.log| <= |t1.log| && t1.log[..|t0.log|] == t0.log
  }

  /** A log extended twice extends the original, and keeps its entries in place. */
  lemma ExtendsTransitive(t0: Terminal, t1: Terminal, t2: Terminal)
    requires Extends(t0, t1) && Extends(t1, t2)
    ensures Extends(t0, t2)
    ensures forall i :: 0 <= i < |t1.log| ==> t2.log[i] == t1.log[i]
  {
    assert t2.log[..|t0.log|] == t2.log[..|t1.log|][..|t0.log|];
    forall i | 0 <= i < |t1.log|
      ensures t2.log[i] == t1.log[i]
    {
      assert t2.log[i] == t2.log[..|t1.log|][i];
    }
  }

  /** A first-match search: the position of the first element satisfying `p`. */
  function FindFirst<T>(xs: seq<T>, p: T -> bool): (r: Option<nat>)
    ensures r.Some? ==> r.value < |xs| && p(xs[r.value]) && forall j :: 0 <= j < r.value ==> !p(xs[j])
    ensures r.None? ==> forall j :: 0 <= j < |xs| ==> !p(xs[j])
    decreases |xs|
  {
    if xs == [] then None
    else if p(xs[0]) then Some(0)
    else
      match FindFirst(xs[1..], p)
      case None => None
      case Some(k) => Some(k + 1)
  }

  /** An element that satisfies `p` with none before it is what the search finds. */
  lemma FirstMatch<T>(xs: seq<T>, p: T -> bool, i: nat)
    requires i < |xs| && p(xs[i]) && forall j :: 0 <= j < i ==> !p(xs[j])
    ensures FindFirst(xs, p) == Some(i)
  {
  }

  /** Using up `a` and then `b` script entries is using up `a + b`. */
  lemma DropDrop(failures: seq<bool>, a: nat, b: nat)
    ensures Drop(Drop(failures, a), b) == Drop(failures, a + b)
  {
    if a < |failures| && a + b < |failures| {
      assert failures[a..][b..] == failures[a + b..];
    }
  }

  /** No failure among the next `a + n` calls means none among the first `a`, nor the `n` after them. */
  lemma NoFailuresSplit(failures: seq<bool>, a: nat, n: nat)
    requires NoFailures(failures, a + n)
    ensures NoFailures(failures, a)
    ensures NoFailures(Drop(failures, a), n)
  {
    var rest := Drop(failures, a);
    forall i | 0 <= i < n && i < |rest|
      ensures !rest[i]
    {
      assert rest[i] == failures[a + i];
    }
  }

  /** The dev layout's shape: at least two tabs, and at least four sessions in the first. */
  predicate HasDevShape(w: Window)
  {
    |w.tabs| >= 2 && |w.tabs[0].sessions| >= 4
  }

  /** `"--local-only" in sys.argv or "--local" in sys.argv`. */
  predicate LocalOnly(argv: seq<string>)
  {
    "--local-only" in argv || "--local" in argv
  }

  /** A live iTerm2 connection: the sessions' input log and the failure script. */
  class Connection {
    var log: seq<Sent>
    var failures: seq<bool>

    function State(): Terminal
      reads this
    {
      Terminal(log, failures)
    }

    constructor (failures: seq<bool>)
      ensures State() == Terminal([], failures)
    {
      log := [];
      this.failures := failures;
    }

    /** `await session.async_send_text(text)`; `ok` is false where the call raises. */
    method SendText(session: SessionId, text: string) returns (ok: bool)
      modifies this
      ensures (State(), ok) == Send(old(State()), session, text)
    {
      ok := !NextFails(failures);
      if ok {
        log := log + [Sent(session, text)];
      }
      failures := Drop(failures, 1);
    }
  }
}

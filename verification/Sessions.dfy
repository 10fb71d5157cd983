/**
 * Sessions over runs of the event loop. Nothing is asked of what clients send: only that
 * accept hands out descriptors that are not tracked yet.
 */
module Sessions {
  import opened Values
  import opened Connections
  import opened AuthKeys
  import opened Snapshot
  import opened Catalog
  import opened Server
  import opened Validation
  import T = Tables

  // ---- What every step keeps ----

  ghost predicate Tidy(s: State) {
    AllUsable(s.tables) && DistinctFds(s.clients)
  }

  ghost predicate Fair(s: State, e: Event) {
    EventFormed(e) && (e.Connect? ==> !Tracked(s.clients, e.fd))
  }

  lemma {:induction false} TidyUsable(s: State, e: Event)
    requires Tidy(s) && Fair(s, e)
    ensures AllUsable(s.tables) && EventFormed(e)
  {
  }

  /** No change, typed or not, leaves a table unusable. */
  lemma {:induction false} ChangeUsable(t: T.Table, cmd: Change)
    requires Usable(t) && WellFormedChange(cmd)
    ensures Usable(ExecuteOn(t, cmd).0)
  {
    hide CheckAddedValues, CheckUpdates, FieldPlace, T.BuildIndex, T.UpdateCells;
  }

  lemma {:induction false} ExecuteUsable(env: Env, tables: seq<T.Table>, keys: seq<AuthKey>, who: string, cmd: Command)
    requires AllUsable(tables) && WellFormed(cmd)
    ensures AllUsable(Execute(env, tables, keys, who, cmd).0)
  {
    hide Usable, ExecuteOn, ExecuteRead, AddKey, DelKey, KeyTable, WellFormedChange, T.Create;
    match cmd {
      case Write(name, change) =>
        if FindDb(tables, name).Some? {
          FoundUsable(tables, name);
          ChangeUsable(FindDb(tables, name).value, change);
        }
      case NewTable(name, fields) => CreateUsable(env.hash, CopyName(name), fields);
      case _ =>
    }
  }

  lemma {:induction false} CreateUsable(hash: int -> nat, name: string, fields: seq<Field>)
    ensures Usable(T.Create(hash, name, fields))
  {
  }

  /** A read-only command changes neither tables nor keys. */
  lemma {:induction false} ReadsChangeNothing(env: Env, tables: seq<T.Table>, keys: seq<AuthKey>, who: string, cmd: Command)
    requires AllUsable(tables) && WellFormed(cmd) && ReadsOnly(cmd)
    ensures Execute(env, tables, keys, who, cmd).0 == tables && Execute(env, tables, keys, who, cmd).1 == keys
  {
  }

  /** A step that changes tables or keys is a line from a client at admin level. */
  lemma {:induction false} ChangeIsAdmins(env: Env, s: State, e: Event)
    requires AllUsable(s.tables) && EventFormed(e)
    requires Step(env, s, e).0.tables != s.tables || Step(env, s, e).0.keys != s.keys
    ensures e.Ready? && e.input.Line? && LevelOf(s.clients, e.fd) == Admin
  {
    hide Execute, LevelOf, Joined, Left, Granted, VerifyToken;
    if e.Ready? && e.input.Line? && ReadsOnly(e.input.command) {
      ReadsChangeNothing(env, s.tables, s.keys, CopyName(NameOf(s.clients, e.fd)), e.input.command);
    }
  }

  lemma {:induction false} ClientsKept(env: Env, s: State, e: Event)
    requires Tidy(s) && Fair(s, e)
    ensures DistinctFds(Step(env, s, e).0.clients) && Step(env, s, e).0.max == s.max
    ensures |s.clients| <= s.max ==> |Step(env, s, e).0.clients| <= s.max
  {
    hide Execute, VerifyToken, Granted, Left, LevelOf, NameOf;
    match e {
      case Signal =>
      case Connect(fd, _) => JoinSeen(s.clients, fd, fd);
      case Ready(fd, Hangup) => LeaveSeen(s.clients, fd, fd); LeaveShorter(s.clients, fd);
      case Ready(fd, Line(cmd)) =>
        if cmd.Auth? {
          var (level, name) := VerifyToken(s.keys, cmd.token, env.verify);
          GrantSeen(s.clients, fd, level, name, fd);
        }
    }
  }

  lemma {:induction false} LeaveShorter(cs: seq<Client>, fd: int)
    ensures |Left(cs, fd)| <= |cs|
  {
  }

  lemma {:induction false} StepTidy(env: Env, s: State, e: Event)
    requires Tidy(s) && Fair(s, e)
    ensures Tidy(Step(env, s, e).0)
  {
    hide Execute, Granted, Joined, Left, LevelOf, NameOf, VerifyToken;
    ClientsKept(env, s, e);
    if Step(env, s, e).0.tables != s.tables {
      ChangeIsAdmins(env, s, e);
      ExecuteUsable(env, s.tables, s.keys, CopyName(NameOf(s.clients, e.fd)), e.input.command);
    }
  }

  // ---- Runs ----

  /** The loop goes from s to s' on e. */
  ghost predicate Steps(env: Env, s: State, e: Event, s': State) {
    Tidy(s) ==> Fair(s, e) && s' == Step(env, s, e).0
  }

  ghost predicate IsTrace(env: Env, states: seq<State>, events: seq<Event>) {
    && |states| == |events| + 1 && Tidy(states[0])
    && forall i :: 0 <= i < |events| ==> Steps(env, states[i], events[i], states[i + 1])
  }

  lemma {:induction false} TraceTidy(env: Env, states: seq<State>, events: seq<Event>, n: nat)
    requires IsTrace(env, states, events) && n < |states|
    ensures Tidy(states[n])
    decreases n
  {
    hide Tidy, Fair, Step;
    if n > 0 {
      TraceTidy(env, states, events, n - 1);
      assert Steps(env, states[n - 1], events[n - 1], states[n]);
      StepTidy(env, states[n - 1], events[n - 1]);
    }
  }

  // ---- Sessions ----

  /** What a successful AUTH by fd earns in this step. */
  ghost function Grant(env: Env, s: State, e: Event, fd: int): Option<(Level, string)> {
    if e.Ready? && e.fd == fd && Tracked(s.clients, fd) && e.input.Line? && e.input.command.Auth?
       && VerifyToken(s.keys, e.input.command.token, env.verify).0 != NoAuth
    then Some(VerifyToken(s.keys, e.input.command.token, env.verify))
    else None
  }

  /** The connection fd is added or removed in this step. */
  ghost predicate Breaks(s: State, e: Event, fd: int) {
    || (e.Connect? && e.fd == fd && fd != -1 && |s.clients| < s.max && e.watched)
    || (e.Ready? && e.fd == fd && Tracked(s.clients, fd) && e.input.Hangup?)
  }

  /** How one step changes what a descriptor's session is. */
  lemma {:induction false} StepSession(env: Env, s: State, e: Event, fd: int)
    requires Tidy(s) && Fair(s, e)
    ensures var seen := SeenAs(Step(env, s, e).0.clients, fd);
            && (Breaks(s, e, fd) ==> seen.1 == NoAuth && seen.2 == "")
            && (Grant(env, s, e, fd).Some? ==> seen.1 == Grant(env, s, e, fd).value.0 && seen.2 == Grant(env, s, e, fd).value.1)
            && (!Breaks(s, e, fd) && Grant(env, s, e, fd).None? ==> seen == SeenAs(s.clients, fd))
  {
    hide Execute, VerifyToken, Granted, Left, Joined, LevelOf, NameOf, SeenAs, Tracked;
    match e {
      case Signal =>
      case Connect(g, _) => JoinSeen(s.clients, g, fd);
      case Ready(g, Hangup) => LeaveSeen(s.clients, g, fd);
      case Ready(g, Line(cmd)) =>
        if cmd.Auth? {
          var (level, name) := VerifyToken(s.keys, cmd.token, env.verify);
          GrantSeen(s.clients, g, level, name, fd);
          VerifiedName(s.keys, cmd.token, env.verify);
        }
    }
  }

  lemma {:induction false} VerifiedName(keys: seq<AuthKey>, token: string, verify: Verify)
    ensures CopyName(VerifyToken(keys, token, verify).1) == VerifyToken(keys, token, verify).1
  {
  }

  /** Step i was the last successful AUTH by fd before step n, and the connection has lived since. */
  ghost predicate HeldSince(env: Env, states: seq<State>, events: seq<Event>, n: nat, fd: int, i: nat)
    requires |states| == |events| + 1 && n <= |events|
  {
    && i < n && Grant(env, states[i], events[i], fd).Some?
    && forall j :: i < j < n ==> Grant(env, states[j], events[j], fd).None? && !Breaks(states[j], events[j], fd)
  }

  /**
   * In every run that starts without clients, a descriptor's level is above none exactly
   * when some successful AUTH still stands, and then level and name are what that AUTH
   * earned. A descriptor that was closed and handed out again starts with nothing.
   */
  lemma {:induction false} SessionIsLastAuth(env: Env, states: seq<State>, events: seq<Event>, n: nat, fd: int)
    requires IsTrace(env, states, events) && states[0].clients == [] && n <= |events|
    ensures LevelOf(states[n].clients, fd) != NoAuth <==> exists i: nat :: HeldSince(env, states, events, n, fd, i)
    ensures LevelOf(states[n].clients, fd) == NoAuth ==> NameOf(states[n].clients, fd) == ""
    ensures forall i: nat :: HeldSince(env, states, events, n, fd, i) ==>
      Grant(env, states[i], events[i], fd) == Some((LevelOf(states[n].clients, fd), NameOf(states[n].clients, fd)))
    decreases n
  {
    hide Tidy, Fair, Step, Grant, Breaks, LevelOf, NameOf;
    if n == 0 {
      UnseenClient([], fd);
    } else {
      var m := n - 1;
      SessionIsLastAuth(env, states, events, m, fd);
      TraceTidy(env, states, events, m);
      assert Steps(env, states[m], events[m], states[n]);
      StepSession(env, states[m], events[m], fd);
      GrantMeans(env, states[m], events[m], fd);
      var seen := (LevelOf(states[n].clients, fd), NameOf(states[n].clients, fd));
      forall i: nat | HeldSince(env, states, events, n, fd, i)
        ensures Grant(env, states[i], events[i], fd) == Some(seen) && seen.0 != NoAuth
      {
        HeldStepAt(env, states, events, m, fd, i);
      }
      if Grant(env, states[m], events[m], fd).Some? {
        HeldStepAt(env, states, events, m, fd, m);
      } else if !Breaks(states[m], events[m], fd) && LevelOf(states[m].clients, fd) != NoAuth {
        var i: nat :| HeldSince(env, states, events, m, fd, i);
        HeldStepAt(env, states, events, m, fd, i);
      }
    }
  }

  /** How a standing AUTH survives one more step. */
  lemma {:induction false} HeldStepAt(env: Env, states: seq<State>, events: seq<Event>, m: nat, fd: int, i: nat)
    requires |states| == |events| + 1 && m < |events|
    ensures HeldSince(env, states, events, m + 1, fd, i) <==>
      || (i == m && Grant(env, states[m], events[m], fd).Some?)
      || (HeldSince(env, states, events, m, fd, i)
          && Grant(env, states[m], events[m], fd).None? && !Breaks(states[m], events[m], fd))
  {
    hide Grant, Breaks;
    if i < m && HeldSince(env, states, events, m + 1, fd, i) {
      assert Grant(env, states[m], events[m], fd).None? && !Breaks(states[m], events[m], fd);
      forall j | i < j < m
        ensures Grant(env, states[j], events[j], fd).None? && !Breaks(states[j], events[j], fd)
      {
      }
    }
  }

  /** A grant was earned with a token that matches a stored key of that role, and it does not break. */
  lemma {:induction false} GrantMeans(env: Env, s: State, e: Event, fd: int)
    ensures Grant(env, s, e, fd).Some? ==>
      && !Breaks(s, e, fd) && e.Ready? && e.fd == fd && e.input.Line? && e.input.command.Auth?
      && Grant(env, s, e, fd).value.0 != NoAuth
      && exists k :: k in s.keys && env.verify(k.hash, e.input.command.token) && Grant(env, s, e, fd).value.0 == RoleLevel(k.role)
  {
  }

  /** In this step fd presents a token that matches a stored admin key. */
  ghost predicate AdminAuth(env: Env, s: State, e: Event, fd: int) {
    && e.Ready? && e.fd == fd && e.input.Line? && e.input.command.Auth?
    && exists k :: k in s.keys && k.role == ROLE_ADMIN && env.verify(k.hash, e.input.command.token)
  }

  /**
   * In every run that starts without clients, tables or keys change only in a step taken
   * for a connection whose last successful AUTH, still standing, presented a token that
   * matched an admin key stored at that time.
   */
  lemma {:induction false} OnlyAdminsChange(env: Env, states: seq<State>, events: seq<Event>, n: nat)
    requires IsTrace(env, states, events) && states[0].clients == [] && n < |events|
    requires states[n + 1].tables != states[n].tables || states[n + 1].keys != states[n].keys
    ensures events[n].Ready? && events[n].input.Line?
    ensures exists i: nat :: HeldSince(env, states, events, n, events[n].fd, i) && AdminAuth(env, states[i], events[i], events[n].fd)
  {
    hide Tidy, Fair, Step, Grant, Breaks, LevelOf, NameOf;
    TraceTidy(env, states, events, n);
    assert Steps(env, states[n], events[n], states[n + 1]);
    TidyUsable(states[n], events[n]);
    ChangeIsAdmins(env, states[n], events[n]);
    var fd := events[n].fd;
    SessionIsLastAuth(env, states, events, n, fd);
    var i: nat :| HeldSince(env, states, events, n, fd, i);
    GrantMeans(env, states[i], events[i], fd);
  }
}

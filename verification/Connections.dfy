/** Client connections: three parallel arrays with shift-left removal, refining a map from descriptor to session. */
module Connections {
  import opened Values

  datatype Level = NoAuth | ReadOnly | Admin

  /** One tracked connection. */
  datatype Client = Client(fd: int, level: Level, name: string)

  const NAME_LIMIT: nat := 63

  /** A bounded string copy that always leaves room for the terminator. */
  function CopyName(s: string): (r: string)
    ensures |r| <= NAME_LIMIT && r <= s && (|s| <= NAME_LIMIT ==> r == s)
  {
    if |s| <= NAME_LIMIT then s else s[..NAME_LIMIT]
  }

  // ---- The list of clients ----

  /** The place of the first client with this descriptor, or the length. */
  function Place(cs: seq<Client>, fd: int): (r: nat)
    ensures r <= |cs| && (r < |cs| ==> cs[r].fd == fd)
    ensures forall i :: 0 <= i < r ==> cs[i].fd != fd
  {
    if cs == [] || cs[0].fd == fd then 0 else 1 + Place(cs[1..], fd)
  }

  predicate Tracked(cs: seq<Client>, fd: int) {
    Place(cs, fd) < |cs|
  }

  function LevelOf(cs: seq<Client>, fd: int): Level {
    if Tracked(cs, fd) then cs[Place(cs, fd)].level else NoAuth
  }

  function NameOf(cs: seq<Client>, fd: int): string {
    if Tracked(cs, fd) then cs[Place(cs, fd)].name else ""
  }

  function Joined(cs: seq<Client>, fd: int): seq<Client> {
    cs + [Client(fd, NoAuth, "")]
  }

  function Left(cs: seq<Client>, fd: int): seq<Client> {
    if Tracked(cs, fd) then cs[..Place(cs, fd)] + cs[Place(cs, fd) + 1..] else cs
  }

  function WithLevel(cs: seq<Client>, fd: int, level: Level): seq<Client> {
    if Tracked(cs, fd) then cs[Place(cs, fd) := cs[Place(cs, fd)].(level := level)] else cs
  }

  function WithName(cs: seq<Client>, fd: int, name: string): seq<Client> {
    if Tracked(cs, fd) then cs[Place(cs, fd) := cs[Place(cs, fd)].(name := CopyName(name))] else cs
  }

  // ---- Refinement of a map ----

  ghost predicate DistinctFds(cs: seq<Client>) {
    forall i, j :: 0 <= i < j < |cs| ==> cs[i].fd != cs[j].fd
  }

  ghost function Fds(cs: seq<Client>): set<int> {
    set i | 0 <= i < |cs| :: cs[i].fd
  }

  /** The sessions the list stands for. */
  ghost function SessionMap(cs: seq<Client>): map<int, (Level, string)> {
    map fd | fd in Fds(cs) :: (LevelOf(cs, fd), NameOf(cs, fd))
  }

  lemma {:induction false} PlaceIs(cs: seq<Client>, i: nat)
    requires DistinctFds(cs) && i < |cs|
    ensures Place(cs, cs[i].fd) == i && Tracked(cs, cs[i].fd)
  {
  }

  lemma {:induction false} TrackedIff(cs: seq<Client>, fd: int)
    ensures Tracked(cs, fd) <==> fd in Fds(cs)
  {
    if Tracked(cs, fd) {
      assert cs[Place(cs, fd)].fd == fd;
    }
  }

  /** What one descriptor sees of the list. */
  ghost function SeenAs(cs: seq<Client>, fd: int): (bool, Level, string) {
    (Tracked(cs, fd), LevelOf(cs, fd), NameOf(cs, fd))
  }

  /** A list shows each client under its descriptor. */
  lemma {:induction false} SeenClient(cs: seq<Client>, i: nat)
    requires DistinctFds(cs) && i < |cs|
    ensures SeenAs(cs, cs[i].fd) == (true, cs[i].level, cs[i].name)
  {
    PlaceIs(cs, i);
  }

  lemma {:induction false} UnseenClient(cs: seq<Client>, fd: int)
    requires forall i :: 0 <= i < |cs| ==> cs[i].fd != fd
    ensures SeenAs(cs, fd) == (false, NoAuth, "")
  {
  }

  lemma {:induction false} SessionsAre(cs: seq<Client>, m: map<int, (Level, string)>)
    requires forall fd :: SeenAs(cs, fd) == if fd in m then (true, m[fd].0, m[fd].1) else (false, NoAuth, "")
    ensures SessionMap(cs) == m
  {
    hide LevelOf, NameOf, Tracked, Fds;
    forall fd: int
      ensures fd in Fds(cs) <==> fd in m.Keys
    {
      TrackedIff(cs, fd);
      assert SeenAs(cs, fd).0 == (fd in m);
    }
    assert Fds(cs) == m.Keys;
    forall fd | fd in m
      ensures (LevelOf(cs, fd), NameOf(cs, fd)) == m[fd]
    {
      assert SeenAs(cs, fd) == (true, m[fd].0, m[fd].1);
    }
  }

  lemma {:induction false} SeenSessions(cs: seq<Client>, fd: int)
    ensures SeenAs(cs, fd) == if fd in SessionMap(cs) then (true, SessionMap(cs)[fd].0, SessionMap(cs)[fd].1) else (false, NoAuth, "")
  {
    TrackedIff(cs, fd);
  }

  lemma {:induction false} JoinSeen(cs: seq<Client>, fd: int, g: int)
    requires DistinctFds(cs) && !Tracked(cs, fd)
    ensures DistinctFds(Joined(cs, fd))
    ensures SeenAs(Joined(cs, fd), g) == if g == fd then (true, NoAuth, "") else SeenAs(cs, g)
  {
    hide SeenAs;
    var after := Joined(cs, fd);
    if g == fd {
      SeenClient(after, |cs|);
    } else if Tracked(cs, g) {
      var k := Place(cs, g);
      assert after[k] == cs[k];
      SeenClient(after, k);
      SeenClient(cs, k);
    } else {
      UnseenClient(after, g);
      UnseenClient(cs, g);
    }
  }

  lemma {:induction false} LeaveDistinct(cs: seq<Client>, fd: int)
    requires DistinctFds(cs) && Tracked(cs, fd)
    ensures DistinctFds(Left(cs, fd)) && |Left(cs, fd)| == |cs| - 1
    ensures forall i :: 0 <= i < |cs| - 1 ==> Left(cs, fd)[i] == cs[if i < Place(cs, fd) then i else i + 1]
  {
  }

  lemma {:induction false} LeaveSeen(cs: seq<Client>, fd: int, g: int)
    requires DistinctFds(cs)
    ensures DistinctFds(Left(cs, fd))
    ensures SeenAs(Left(cs, fd), g) == if g == fd then (false, NoAuth, "") else SeenAs(cs, g)
  {
    hide SeenAs, Left;
    if Tracked(cs, fd) {
      LeaveDistinct(cs, fd);
      var after, k := Left(cs, fd), Place(cs, fd);
      if g != fd && Tracked(cs, g) {
        var i := Place(cs, g);
        assert after[if i < k then i else i - 1] == cs[i];
        SeenClient(after, if i < k then i else i - 1);
        SeenClient(cs, i);
      } else {
        UnseenClient(after, g);
        if g != fd {
          UnseenClient(cs, g);
        }
      }
    } else {
      LeaveNone(cs, fd);
      if g == fd {
        UnseenClient(cs, g);
      }
    }
  }

  lemma {:induction false} LeaveNone(cs: seq<Client>, fd: int)
    requires !Tracked(cs, fd)
    ensures Left(cs, fd) == cs
  {
  }

  /** The list after a successful AUTH: level and name set. */
  function Granted(cs: seq<Client>, fd: int, level: Level, name: string): seq<Client> {
    WithName(WithLevel(cs, fd, level), fd, name)
  }

  lemma {:induction false} GrantedForm(cs: seq<Client>, fd: int, level: Level, name: string)
    requires DistinctFds(cs)
    ensures !Tracked(cs, fd) ==> Granted(cs, fd, level, name) == cs
    ensures Tracked(cs, fd) ==> Granted(cs, fd, level, name) == cs[Place(cs, fd) := Client(fd, level, CopyName(name))]
  {
    if Tracked(cs, fd) {
      PlaceIs(WithLevel(cs, fd, level), Place(cs, fd));
    }
  }

  lemma {:induction false} GrantSeen(cs: seq<Client>, fd: int, level: Level, name: string, g: int)
    requires DistinctFds(cs)
    ensures DistinctFds(Granted(cs, fd, level, name)) && |Granted(cs, fd, level, name)| == |cs|
    ensures SeenAs(Granted(cs, fd, level, name), g)
         == if g == fd && Tracked(cs, fd) then (true, level, CopyName(name)) else SeenAs(cs, g)
  {
    hide SeenAs, Granted;
    GrantedForm(cs, fd, level, name);
    if Tracked(cs, fd) {
      var after := Granted(cs, fd, level, name);
      if g == fd {
        SeenClient(after, Place(cs, fd));
      } else if Tracked(cs, g) {
        var k := Place(cs, g);
        assert after[k] == cs[k];
        SeenClient(after, k);
        SeenClient(cs, k);
      } else {
        UnseenClient(after, g);
        UnseenClient(cs, g);
      }
    }
  }

  /** Adding, removing and authenticating refine insertion, removal and update of the session map. */
  lemma {:induction false} JoinRefines(cs: seq<Client>, fd: int)
    requires DistinctFds(cs) && !Tracked(cs, fd)
    ensures DistinctFds(Joined(cs, fd)) && SessionMap(Joined(cs, fd)) == SessionMap(cs)[fd := (NoAuth, "")]
  {
    hide SeenAs, Joined, SessionMap, Tracked;
    forall g
      ensures SeenAs(Joined(cs, fd), g)
        == if g == fd then (true, NoAuth, "")
           else if g in SessionMap(cs) then (true, SessionMap(cs)[g].0, SessionMap(cs)[g].1) else (false, NoAuth, "")
    {
      JoinSeen(cs, fd, g);
      SeenSessions(cs, g);
    }
    JoinSeen(cs, fd, fd);
    SessionsAre(Joined(cs, fd), SessionMap(cs)[fd := (NoAuth, "")]);
  }

  lemma {:induction false} LeaveRefines(cs: seq<Client>, fd: int)
    requires DistinctFds(cs)
    ensures DistinctFds(Left(cs, fd)) && SessionMap(Left(cs, fd)) == SessionMap(cs) - {fd}
  {
    hide SeenAs, Left, SessionMap, Tracked;
    forall g
      ensures SeenAs(Left(cs, fd), g)
        == if g != fd && g in SessionMap(cs) then (true, SessionMap(cs)[g].0, SessionMap(cs)[g].1) else (false, NoAuth, "")
    {
      LeaveSeen(cs, fd, g);
      SeenSessions(cs, g);
    }
    LeaveSeen(cs, fd, fd);
    SessionsAre(Left(cs, fd), SessionMap(cs) - {fd});
  }

  lemma {:induction false} GrantRefines(cs: seq<Client>, fd: int, level: Level, name: string)
    requires DistinctFds(cs) && Tracked(cs, fd)
    ensures DistinctFds(Granted(cs, fd, level, name))
    ensures SessionMap(Granted(cs, fd, level, name)) == SessionMap(cs)[fd := (level, CopyName(name))]
  {
    hide SeenAs, Granted, SessionMap, Tracked;
    forall g
      ensures SeenAs(Granted(cs, fd, level, name), g)
        == if g == fd then (true, level, CopyName(name))
           else if g in SessionMap(cs) then (true, SessionMap(cs)[g].0, SessionMap(cs)[g].1) else (false, NoAuth, "")
    {
      GrantSeen(cs, fd, level, name, g);
      SeenSessions(cs, g);
    }
    GrantSeen(cs, fd, level, name, fd);
    SessionsAre(Granted(cs, fd, level, name), SessionMap(cs)[fd := (level, CopyName(name))]);
  }

  /** There are as many sessions as clients. */
  lemma {:induction false} SessionCount(cs: seq<Client>)
    requires DistinctFds(cs)
    ensures |SessionMap(cs).Keys| == |cs|
  {
    hide LevelOf, NameOf;
    FdCount(cs);
    assert SessionMap(cs).Keys == Fds(cs);
  }

  lemma {:induction false} FdCount(cs: seq<Client>)
    requires DistinctFds(cs)
    ensures |Fds(cs)| == |cs|
    decreases |cs|
  {
    if cs == [] {
      assert Fds(cs) == {};
    } else {
      var last := |cs| - 1;
      var front := cs[..last];
      FdCount(front);
      forall fd
        ensures fd in Fds(cs) <==> fd in Fds(front) || fd == cs[last].fd
      {
        if fd in Fds(front) {
          var i :| 0 <= i < |front| && front[i].fd == fd;
          assert cs[i].fd == fd;
        }
        if fd in Fds(cs) {
          var i :| 0 <= i < |cs| && cs[i].fd == fd;
          assert i < last ==> front[i].fd == fd;
        }
      }
      assert Fds(cs) == Fds(front) + {cs[last].fd};
    }
  }

  // ---- The arrays ----

  class ConnectionManager {
    var clients: array<int>
    var levels: array<Level>
    var names: array<string>
    var count: nat
    const max: nat

    /** Vacated places are scrubbed. */
    ghost predicate Valid()
      reads this, clients, levels, names
    {
      && clients.Length == levels.Length == names.Length == max
      && count <= max
      && forall i :: count <= i < max ==> clients[i] == -1 && levels[i] == NoAuth && names[i] == ""
    }

    ghost function Contents(): (cs: seq<Client>)
      requires Valid()
      reads this, clients, levels, names
      ensures |cs| == count
      ensures forall i :: 0 <= i < count ==> cs[i] == Client(clients[i], levels[i], names[i])
    {
      seq(count, i requires 0 <= i < count reads this, clients, levels, names =>
        if i < clients.Length && i < levels.Length && i < names.Length
        then Client(clients[i], levels[i], names[i]) else Client(-1, NoAuth, ""))
    }

    constructor (maxClients: nat)
      ensures Valid() && Contents() == [] && max == maxClients
      ensures fresh(clients) && fresh(levels) && fresh(names)
    {
      max := maxClients;
      clients := new int[maxClients](_ => -1);
      levels := new Level[maxClients](_ => NoAuth);
      names := new string[maxClients](_ => "");
      count := 0;
    }

    /** The scan every accessor runs. */
    method Seek(fd: int) returns (i: nat)
      requires Valid()
      ensures i == Place(Contents(), fd)
    {
      i := 0;
      ghost var cs := Contents();
      while i < count
        invariant i <= count
        invariant forall j :: 0 <= j < i ==> cs[j].fd != fd
      {
        if clients[i] == fd {
          return;
        }
        i := i + 1;
      }
    }

    method IsClient(fd: int) returns (b: bool)
      requires Valid()
      ensures b == Tracked(Contents(), fd)
    {
      var i := Seek(fd);
      b := i < count;
    }

    method GetClientAuth(fd: int) returns (level: Level)
      requires Valid()
      ensures level == LevelOf(Contents(), fd)
    {
      var i := Seek(fd);
      level := if i < count then levels[i] else NoAuth;
    }

    method GetClientName(fd: int) returns (name: string)
      requires Valid()
      ensures name == CopyName(NameOf(Contents(), fd))
    {
      var i := Seek(fd);
      name := if i < count then CopyName(names[i]) else "";
    }

    /** -1 at capacity or when the descriptor cannot be watched. */
    method AddClient(fd: int, watched: bool) returns (code: int)
      requires Valid()
      modifies this`count, clients, levels, names
      ensures Valid()
      ensures code == if old(|Contents()|) >= max || !watched then -1 else 0
      ensures Contents() == if code == 0 then Joined(old(Contents()), fd) else old(Contents())
    {
      if count >= max || !watched {
        return -1;
      }
      levels[count] := NoAuth;
      names[count] := "";
      clients[count] := fd;
      count := count + 1;
      assert Contents() == Joined(old(Contents()), fd);
      code := 0;
    }

    method SetClientAuth(fd: int, level: Level)
      requires Valid()
      modifies levels
      ensures Valid() && Contents() == WithLevel(old(Contents()), fd, level)
    {
      var i := Seek(fd);
      if i < count {
        levels[i] := level;
      }
      assert Contents() == WithLevel(old(Contents()), fd, level);
    }

    method SetClientName(fd: int, name: string)
      requires Valid()
      modifies names
      ensures Valid() && Contents() == WithName(old(Contents()), fd, name)
    {
      var i := Seek(fd);
      if i < count {
        names[i] := CopyName(name);
      }
      assert Contents() == WithName(old(Contents()), fd, name);
    }

    /** Shift the entries after place i left over it. */
    method ShiftLeft(i: nat)
      requires Valid() && i < count
      modifies clients, levels, names
      ensures clients.Length == levels.Length == names.Length == max
      ensures forall k :: 0 <= k < i ==>
        clients[k] == old(clients[k]) && levels[k] == old(levels[k]) && names[k] == old(names[k])
      ensures forall k :: i <= k < count - 1 ==>
        clients[k] == old(clients[k + 1]) && levels[k] == old(levels[k + 1]) && names[k] == old(names[k + 1])
      ensures forall k :: count - 1 <= k < max ==>
        clients[k] == old(clients[k]) && levels[k] == old(levels[k]) && names[k] == old(names[k])
    {
      for j := i to count - 1
        invariant forall k :: 0 <= k < i || j <= k < max ==>
          clients[k] == old(clients[k]) && levels[k] == old(levels[k]) && names[k] == old(names[k])
        invariant forall k :: i <= k < j ==>
          clients[k] == old(clients[k + 1]) && levels[k] == old(levels[k + 1]) && names[k] == old(names[k + 1])
      {
        clients[j] := clients[j + 1];
        levels[j] := levels[j + 1];
        names[j] := names[j + 1];
      }
    }

    /** Remove the entry at place i and scrub the vacated place. */
    method CutOut(i: nat)
      requires Valid() && i < count
      modifies this`count, clients, levels, names
      ensures Valid() && count == old(count) - 1
      ensures forall k :: 0 <= k < count ==> Contents()[k] == old(Contents())[if k < i then k else k + 1]
    {
      ShiftLeft(i);
      count := count - 1;
      clients[count] := -1;
      levels[count] := NoAuth;
      names[count] := "";
    }

    method RemoveClient(fd: int) returns (code: int)
      requires Valid()
      modifies this`count, clients, levels, names
      ensures Valid() && Contents() == Left(old(Contents()), fd)
      ensures code == if Tracked(old(Contents()), fd) then 0 else -1
    {
      var i := Seek(fd);
      if i >= count {
        return -1;
      }
      ghost var before := Contents();
      CutOut(i);
      assert Contents() == before[..i] + before[i + 1..];
      code := 0;
    }

    method CloseAllClients()
      requires Valid()
      modifies this`count, clients, levels, names
      ensures Valid() && Contents() == []
    {
      for i := 0 to count
        invariant count == old(count)
        invariant forall k :: 0 <= k < i ==> clients[k] == -1 && levels[k] == NoAuth && names[k] == ""
        invariant forall k :: count <= k < max ==> clients[k] == -1 && levels[k] == NoAuth && names[k] == ""
      {
        clients[i] := -1;
        levels[i] := NoAuth;
        names[i] := "";
      }
      count := 0;
      assert Contents() == [];
    }
  }
}

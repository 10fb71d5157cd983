/** The key store: a fixed array of named keys. Password hashing and verification are inputs. */
module AuthKeys {
  import opened Values
  import opened Connections
  import opened Snapshot

  const ROLE_ADMIN: nat := 1

  /** Whether a stored hash matches a token. */
  type Verify = (string, string) -> bool

  /** The place of the first key with this name, or the length. */
  function KeyPlace(keys: seq<AuthKey>, name: string): (r: nat)
    ensures r <= |keys| && (r < |keys| ==> keys[r].name == name)
    ensures forall i :: 0 <= i < r ==> keys[i].name != name
  {
    if keys == [] || keys[0].name == name then 0 else 1 + KeyPlace(keys[1..], name)
  }

  /** ADD_KEY on the store: hashing may fail. */
  function AddKey(keys: seq<AuthKey>, name: string, hash: Option<string>, role: nat): (seq<AuthKey>, int) {
    if |keys| >= AUTH_MAX_KEYS || KeyPlace(keys, name) < |keys| || hash.None? then (keys, -1)
    else (keys + [AuthKey(CopyName(name), hash.value, role)], 0)
  }

  function DelKey(keys: seq<AuthKey>, name: string): (seq<AuthKey>, int) {
    var k := KeyPlace(keys, name);
    if k < |keys| then (keys[..k] + keys[k + 1..], 0) else (keys, -1)
  }

  function FirstMatch(keys: seq<AuthKey>, token: string, verify: Verify): (r: Option<AuthKey>)
    ensures r.Some? ==> r.value in keys && verify(r.value.hash, token)
    ensures r.None? ==> forall i :: 0 <= i < |keys| ==> !verify(keys[i].hash, token)
  {
    if keys == [] then None
    else if verify(keys[0].hash, token) then Some(keys[0])
    else FirstMatch(keys[1..], token, verify)
  }

  function RoleLevel(role: nat): Level {
    if role == ROLE_ADMIN then Admin else ReadOnly
  }

  /** The level and name a token earns. */
  function VerifyToken(keys: seq<AuthKey>, token: string, verify: Verify): (Level, string) {
    match FirstMatch(keys, token, verify)
    case None => (NoAuth, "")
    case Some(k) => (RoleLevel(k.role), CopyName(k.name))
  }

  // ---- What the store keeps ----

  ghost predicate UniqueNames(keys: seq<AuthKey>) {
    forall i, j :: 0 <= i < j < |keys| ==> keys[i].name != keys[j].name
  }

  ghost predicate KeysOk(keys: seq<AuthKey>) {
    |keys| <= AUTH_MAX_KEYS && UniqueNames(keys)
  }

  /** The keys with other names, in order. */
  function Without(keys: seq<AuthKey>, name: string): seq<AuthKey> {
    if keys == [] then [] else (if keys[0].name == name then [] else [keys[0]]) + Without(keys[1..], name)
  }

  lemma {:induction false} WithoutNone(keys: seq<AuthKey>, name: string)
    requires forall i :: 0 <= i < |keys| ==> keys[i].name != name
    ensures Without(keys, name) == keys
    decreases |keys|
  {
    if keys != [] {
      WithoutNone(keys[1..], name);
    }
  }

  lemma {:induction false} WithoutConcat(a: seq<AuthKey>, b: seq<AuthKey>, name: string)
    ensures Without(a + b, name) == Without(a, name) + Without(b, name)
    decreases |a|
  {
    if a == [] {
      assert a + b == b;
    } else {
      assert (a + b)[1..] == a[1..] + b;
      WithoutConcat(a[1..], b, name);
    }
  }

  /** Deleting a key removes exactly the keys of that name and keeps the order of the rest. */
  lemma {:induction false} DelKeyIsWithout(keys: seq<AuthKey>, name: string)
    requires UniqueNames(keys)
    ensures DelKey(keys, name).0 == Without(keys, name)
    ensures DelKey(keys, name).1 == 0 <==> exists i :: 0 <= i < |keys| && keys[i].name == name
  {
    hide Without;
    var k := KeyPlace(keys, name);
    if k == |keys| {
      WithoutNone(keys, name);
    } else {
      var before, after := keys[..k], keys[k + 1..];
      assert keys == before + ([keys[k]] + after);
      WithoutConcat(before, [keys[k]] + after, name);
      WithoutFirst(keys[k], after, name);
      WithoutNone(before, name);
      WithoutNone(after, name);
    }
  }

  lemma {:induction false} WithoutFirst(key: AuthKey, after: seq<AuthKey>, name: string)
    requires key.name == name
    ensures Without([key] + after, name) == Without(after, name)
  {
    assert ([key] + after)[1..] == after;
  }

  lemma {:induction false} DelKeyKeeps(keys: seq<AuthKey>, name: string)
    requires KeysOk(keys)
    ensures KeysOk(DelKey(keys, name).0)
  {
    var after, k := DelKey(keys, name).0, KeyPlace(keys, name);
    if k < |keys| {
      assert forall i :: 0 <= i < |after| ==> after[i] == keys[if i < k then i else i + 1];
    }
  }

  /**
   * An added key keeps names unique exactly when the copy of its name that fits a slot is
   * new; for names that fit, the duplicate test already ensures it.
   */
  lemma {:induction false} AddKeyKeepsIff(keys: seq<AuthKey>, name: string, hash: Option<string>, role: nat)
    requires KeysOk(keys) && AddKey(keys, name, hash, role).1 == 0
    ensures KeysOk(AddKey(keys, name, hash, role).0) <==> KeyPlace(keys, CopyName(name)) == |keys|
    ensures |name| <= NAME_LIMIT ==> KeysOk(AddKey(keys, name, hash, role).0)
  {
    var after, k := AddKey(keys, name, hash, role).0, KeyPlace(keys, CopyName(name));
    assert forall i :: 0 <= i < |keys| ==> after[i] == keys[i];
    assert after[|keys|].name == CopyName(name);
    if k < |keys| {
      assert after[k].name == after[|keys|].name;
    }
  }

  /** Deleting undoes adding. */
  lemma {:induction false} DelUndoesAdd(keys: seq<AuthKey>, name: string, hash: Option<string>, role: nat)
    requires KeysOk(keys) && |name| <= NAME_LIMIT && AddKey(keys, name, hash, role).1 == 0
    ensures DelKey(AddKey(keys, name, hash, role).0, name) == (keys, 0)
  {
    var after := AddKey(keys, name, hash, role).0;
    assert forall i :: 0 <= i < |keys| ==> after[i] == keys[i];
    assert after[|keys|].name == name;
    var k := KeyPlace(after, name);
    assert k == |keys|;
    assert after[..k] + after[k + 1..] == keys;
  }

  /** A token is worth something exactly when some key's hash matches it. */
  lemma {:induction false} VerifiesIff(keys: seq<AuthKey>, token: string, verify: Verify)
    ensures VerifyToken(keys, token, verify).0 != NoAuth <==> exists i :: 0 <= i < |keys| && verify(keys[i].hash, token)
  {
    match FirstMatch(keys, token, verify)
    case None =>
    case Some(k) =>
      var i :| 0 <= i < |keys| && keys[i] == k;
      assert verify(keys[i].hash, token);
  }

  /** After DEL_KEY a token still counts exactly when a key of another name matches it. */
  lemma {:induction false} DeletedTokenIff(keys: seq<AuthKey>, name: string, token: string, verify: Verify)
    requires UniqueNames(keys)
    ensures VerifyToken(DelKey(keys, name).0, token, verify).0 != NoAuth
       <==> exists i :: 0 <= i < |keys| && keys[i].name != name && verify(keys[i].hash, token)
  {
    hide VerifyToken, DelKey;
    DelKeyIsWithout(keys, name);
    VerifiesIff(DelKey(keys, name).0, token, verify);
    WithoutMatches(keys, name, token, verify);
  }

  /** The kept keys are those of other names. */
  lemma {:induction false} WithoutMembers(keys: seq<AuthKey>, name: string, k: AuthKey)
    ensures k in Without(keys, name) <==> k in keys && k.name != name
    decreases |keys|
  {
    if keys != [] {
      WithoutMembers(keys[1..], name, k);
      assert keys == [keys[0]] + keys[1..];
    }
  }

  lemma {:induction false} WithoutMatches(keys: seq<AuthKey>, name: string, token: string, verify: Verify)
    ensures (exists i :: 0 <= i < |Without(keys, name)| && verify(Without(keys, name)[i].hash, token))
       <==> exists i :: 0 <= i < |keys| && keys[i].name != name && verify(keys[i].hash, token)
  {
    hide Without;
    var kept := Without(keys, name);
    if i :| 0 <= i < |kept| && verify(kept[i].hash, token) {
      WithoutMembers(keys, name, kept[i]);
      var j :| 0 <= j < |keys| && keys[j] == kept[i];
      assert keys[j].name != name && verify(keys[j].hash, token);
    }
    if i :| 0 <= i < |keys| && keys[i].name != name && verify(keys[i].hash, token) {
      WithoutMembers(keys, name, keys[i]);
      var j :| 0 <= j < |kept| && kept[j] == keys[i];
      assert verify(kept[j].hash, token);
    }
  }

  // ---- The array ----

  const BLANK: AuthKey := AuthKey("", seq(HASH_BYTES, _ => '\0'), 0)

  class AuthStore {
    const keys: array<AuthKey>
    var count: nat

    /** Vacated places are scrubbed. */
    ghost predicate Valid()
      reads this, keys
    {
      keys.Length == AUTH_MAX_KEYS && count <= AUTH_MAX_KEYS && forall i :: count <= i < keys.Length ==> keys[i] == BLANK
    }

    ghost function Contents(): seq<AuthKey>
      requires Valid()
      reads this, keys
    {
      keys[..count]
    }

    constructor ()
      ensures Valid() && Contents() == [] && fresh(keys)
    {
      keys := new AuthKey[AUTH_MAX_KEYS](_ => BLANK);
      count := 0;
    }

    method Seek(name: string) returns (i: nat)
      requires Valid()
      ensures i == KeyPlace(Contents(), name)
    {
      i := 0;
      ghost var all := Contents();
      while i < count
        invariant i <= count
        invariant forall j :: 0 <= j < i ==> all[j].name != name
      {
        if keys[i].name == name {
          return;
        }
        i := i + 1;
      }
    }

    /** The slot is filled before hashing and scrubbed again when hashing fails. */
    method AuthAddKey(name: string, hash: Option<string>, role: nat) returns (code: int)
      requires Valid()
      modifies this`count, keys
      ensures Valid() && (Contents(), code) == AddKey(old(Contents()), name, hash, role)
    {
      if count >= AUTH_MAX_KEYS {
        return -1;
      }
      var i := Seek(name);
      if i < count {
        return -1;
      }
      keys[count] := AuthKey(CopyName(name), [], role);
      if hash.None? {
        keys[count] := BLANK;
        assert keys[..count] == old(keys[..count]);
        return -1;
      }
      keys[count] := keys[count].(hash := hash.value);
      count := count + 1;
      assert keys[..count] == old(keys[..count]) + [AuthKey(CopyName(name), hash.value, role)];
      code := 0;
    }

    /** Shift the keys after place i left over it and scrub the last place. */
    method CutOut(i: nat)
      requires Valid() && i < count
      modifies this`count, keys
      ensures Valid() && count == old(count) - 1
      ensures forall k :: 0 <= k < count ==> keys[k] == old(keys[if k < i then k else k + 1])
    {
      for j := i to count - 1
        invariant count == old(count)
        invariant forall k :: 0 <= k < i || j <= k < AUTH_MAX_KEYS ==> keys[k] == old(keys[k])
        invariant forall k :: i <= k < j ==> keys[k] == old(keys[k + 1])
      {
        keys[j] := keys[j + 1];
      }
      count := count - 1;
      keys[count] := BLANK;
    }

    method AuthDelKey(name: string) returns (code: int)
      requires Valid()
      modifies this`count, keys
      ensures Valid() && (Contents(), code) == DelKey(old(Contents()), name)
    {
      ghost var before := Contents();
      var i := Seek(name);
      if i >= count {
        return -1;
      }
      CutOut(i);
      ghost var after := Contents();
      assert forall k :: 0 <= k < |after| ==> after[k] == before[if k < i then k else k + 1];
      assert after == before[..i] + before[i + 1..];
      code := 0;
    }

    method AuthVerify(token: string, verify: Verify) returns (level: Level, name: string)
      requires Valid()
      ensures (level, name) == VerifyToken(Contents(), token, verify)
    {
      ghost var all := Contents();
      for i := 0 to count
        invariant FirstMatch(all, token, verify) == FirstMatch(all[i..], token, verify)
      {
        assert all[i..][1..] == all[i + 1..];
        if verify(keys[i].hash, token) {
          return if keys[i].role == ROLE_ADMIN then Admin else ReadOnly, CopyName(keys[i].name);
        }
      }
      level, name := NoAuth, "";
    }
  }
}

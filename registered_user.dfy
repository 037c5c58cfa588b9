/** `RegisteredUserArr`: the users of the crew as the query loads them, the
    list of their full names and the persisted device-to-first-name map. */
module RegisteredUsers {
  import opened Base

  /** `RegisteredUser` (its random `id` is left out). */
  datatype RegisteredUser = RegisteredUser(firstName: string, lastName: string, age: int, groupId: string, deviceId: string)

  function FullName(u: RegisteredUser): string {
    u.firstName + " " + u.lastName
  }

  /** The device-to-first-name map of `users`: each user, in order,
      overwrites the entry of its device. */
  function NameMap(users: seq<RegisteredUser>): map<string, string> {
    if users == [] then map[]
    else NameMap(users[..|users| - 1])[users[|users| - 1].deviceId := users[|users| - 1].firstName]
  }

  class RegisteredUserArr {
    var arr: seq<RegisteredUser>
    /** The persisted `groupFirstNames`; `None` until first written. */
    var groupFirstNames: Option<map<string, string>>

    constructor ()
      ensures arr == [] && groupFirstNames == None
    {
      arr := [];
      groupFirstNames := None;
    }

    /** `getUserFullNames`: one full name per user, in order; the map is
        refreshed on the way. */
    method GetUserFullNames() returns (names: seq<string>)
      modifies this
      ensures arr == old(arr)
      ensures |names| == |arr| && forall i :: 0 <= i < |arr| ==> names[i] == FullName(arr[i])
      ensures groupFirstNames == if arr == [] then old(groupFirstNames) else Some(NameMap(arr))
    {
      names := [];
      var i := 0;
      while i < |arr|
        invariant 0 <= i <= |arr|
        invariant |names| == i && forall j :: 0 <= j < i ==> names[j] == FullName(arr[j])
      {
        names := names + [arr[i].firstName + " " + arr[i].lastName];
        i := i + 1;
      }
      UpdateLocalStorage();
    }

    /** `updateLocalStorage`: nothing for an empty list, otherwise the map
        built user by user is stored. */
    method UpdateLocalStorage()
      modifies this
      ensures arr == old(arr)
      ensures groupFirstNames == if arr == [] then old(groupFirstNames) else Some(NameMap(arr))
    {
      if arr == [] {
        return;
      }
      var names: map<string, string> := map[];
      var i := 0;
      while i < |arr|
        invariant 0 <= i <= |arr|
        invariant names == NameMap(arr[..i])
      {
        assert arr[..i + 1][..i] == arr[..i];
        names := names[arr[i].deviceId := arr[i].firstName];
        i := i + 1;
      }
      assert arr[..|arr|] == arr;
      groupFirstNames := Some(names);
    }
  }

  // ---------------------------------------------------------------------
  // Properties of the map

  /** The map's keys are exactly the users' device ids. */
  lemma {:induction false} NameMapKeys(users: seq<RegisteredUser>)
    ensures forall d :: d in NameMap(users) <==> exists i :: 0 <= i < |users| && users[i].deviceId == d
  {
    if users != [] {
      var p := users[..|users| - 1];
      NameMapKeys(p);
      assert forall i :: 0 <= i < |p| ==> p[i] == users[i];
      forall d | d in NameMap(users)
        ensures exists i :: 0 <= i < |users| && users[i].deviceId == d
      {
        if d != users[|users| - 1].deviceId {
          assert d in NameMap(p);
          var i :| 0 <= i < |p| && p[i].deviceId == d;
          assert users[i].deviceId == d;
        }
      }
    }
  }

  /** Each device id maps to the first name of the last user with that id. */
  lemma {:induction false} NameMapLastWins(users: seq<RegisteredUser>, k: int)
    requires 0 <= k < |users|
    requires forall j :: k < j < |users| ==> users[j].deviceId != users[k].deviceId
    ensures users[k].deviceId in NameMap(users)
    ensures NameMap(users)[users[k].deviceId] == users[k].firstName
  {
    if k < |users| - 1 {
      var p := users[..|users| - 1];
      assert forall j :: k < j < |p| ==> p[j] == users[j];
      NameMapLastWins(p, k);
    }
  }

  /** Two users on the same device: the later one's first name is stored. */
  lemma SharedDevice()
    ensures var a := RegisteredUser("Ann", "Lee", 30, "g", "dev");
            var b := RegisteredUser("Bo", "Kim", 40, "g", "dev");
            NameMap([a, b]) == map["dev" := "Bo"]
  {
    var a := RegisteredUser("Ann", "Lee", 30, "g", "dev");
    var b := RegisteredUser("Bo", "Kim", 40, "g", "dev");
    assert [a, b][..1] == [a];
    assert [a][..0] == [];
    assert NameMap([a]) == map["dev" := "Ann"];
  }
}

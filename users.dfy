/** The profile operations of `userService`: counting profiles per role,
    the soft delete and restore that rewrite a profile's role, and the
    profile `inviteUser` creates. */
module Users {
  import opened Seqs

  /** A `profiles` row; nullable columns are `Option`s. */
  datatype Profile = Profile(
    id: string,
    userId: string,
    fullName: Option<string>,
    companyName: Option<string>,
    role: Option<string>,
    businessId: Option<string>)

  const Inactive := "inactive"
  const UserRoleName := "user"

  // ---------------------------------------------------------------------
  // getUserCountByRole

  /** The property name `counts[user.role]` uses: a null role becomes "null". */
  function RoleKey(role: Option<string>): string
  {
    if role.Some? then role.value else "null"
  }

  /** The role key of every profile, in order. */
  function RoleKeys(profiles: seq<Profile>): seq<string>
  {
    seq(|profiles|, k requires 0 <= k < |profiles| => RoleKey(profiles[k].role))
  }

  lemma RoleKeysSnoc(profiles: seq<Profile>, p: Profile)
    ensures RoleKeys(profiles + [p]) == RoleKeys(profiles) + [RoleKey(p.role)]
  {
  }

  /** `getUserCountByRole` after its query: each role present maps to the
      number of profiles holding it; roles that never occur are absent. */
  method CountByRole(profiles: seq<Profile>) returns (counts: map<string, nat>)
    ensures forall r :: r in counts <==> r in RoleKeys(profiles)
    ensures forall r :: r in counts ==> counts[r] == Count(RoleKeys(profiles), r)
  {
    counts := map[];
    var i := 0;
    while i < |profiles|
      invariant 0 <= i <= |profiles|
      invariant forall r :: r in counts <==> r in RoleKeys(profiles[..i])
      invariant forall r :: r in counts ==> counts[r] == Count(RoleKeys(profiles[..i]), r)
    {
      var key := RoleKey(profiles[i].role);
      assert profiles[..i + 1] == profiles[..i] + [profiles[i]];
      RoleKeysSnoc(profiles[..i], profiles[i]);
      assert RoleKeys(profiles[..i + 1])[..i] == RoleKeys(profiles[..i]);
      CountPositive(RoleKeys(profiles[..i]), key);
      counts := counts[key := (if key in counts then counts[key] else 0) + 1];
      i := i + 1;
    }
    assert profiles[..i] == profiles;
  }

  /** Sum of `counts[k]` over the keys `keys`. */
  function SumOver(keys: seq<string>, counts: map<string, nat>): nat
    requires forall k :: k in keys ==> k in counts
  {
    if keys == [] then 0
    else SumOver(keys[..|keys| - 1], counts) + counts[keys[|keys| - 1]]
  }

  lemma {:induction false} SumOverCounts(keys: seq<string>, counts: map<string, nat>, xs: seq<string>)
    requires forall k :: k in keys ==> k in counts && counts[k] == Count(xs, k)
    ensures SumOver(keys, counts) == SumCounts(keys, xs)
  {
    if keys != [] {
      var init := keys[..|keys| - 1];
      assert forall k :: k in init ==> k in keys;
      SumOverCounts(init, counts, xs);
    }
  }

  /** The counts add up to the number of profiles: summing over the roles
      in order of first occurrence, each key of `counts` exactly once. */
  lemma RoleCountsTotal(profiles: seq<Profile>, counts: map<string, nat>)
    requires forall r :: r in counts <==> r in RoleKeys(profiles)
    requires forall r :: r in counts ==> counts[r] == Count(RoleKeys(profiles), r)
    ensures forall r :: r in counts <==> r in Distinct(RoleKeys(profiles))
    ensures NoDuplicates(Distinct(RoleKeys(profiles)))
    ensures SumOver(Distinct(RoleKeys(profiles)), counts) == |profiles|
  {
    var keys := RoleKeys(profiles);
    DistinctSpec(keys);
    SumOverCounts(Distinct(keys), counts, keys);
    SumOfDistinctCounts(keys);
  }

  // ---------------------------------------------------------------------
  // deleteUser / restoreUser

  /** The table after `update({ role }).eq('id', id)`. */
  function SetRole(rows: seq<Profile>, id: string, role: string): (r: seq<Profile>)
    ensures |r| == |rows|
    ensures forall k :: 0 <= k < |rows| ==>
      r[k] == if rows[k].id == id then rows[k].(role := Some(role)) else rows[k]
  {
    seq(|rows|, k requires 0 <= k < |rows| => if rows[k].id == id then rows[k].(role := Some(role)) else rows[k])
  }

  /** Restoring after deleting gives back the table iff every profile with
      that id already had the plain user role: an admin or business
      profile comes back as a plain user. */
  lemma DeleteRestoreRoundTrip(rows: seq<Profile>, id: string)
    ensures SetRole(SetRole(rows, id, Inactive), id, UserRoleName) == rows
      <==> forall k :: 0 <= k < |rows| && rows[k].id == id ==> rows[k].role == Some(UserRoleName)
  {
    var after := SetRole(SetRole(rows, id, Inactive), id, UserRoleName);
    if after == rows {
      forall k | 0 <= k < |rows| && rows[k].id == id ensures rows[k].role == Some(UserRoleName) {
        assert after[k].role == Some(UserRoleName);
      }
    } else {
      var k :| 0 <= k < |rows| && after[k] != rows[k];
      assert rows[k].id == id && rows[k].role != Some(UserRoleName);
    }
  }

  /** Setting a role touches only the `role` column of the matching rows. */
  lemma SetRoleOnlyRole(rows: seq<Profile>, id: string, role: string)
    ensures forall k :: 0 <= k < |rows| ==>
      var p := SetRole(rows, id, role)[k];
      p.id == rows[k].id && p.userId == rows[k].userId && p.fullName == rows[k].fullName
      && p.companyName == rows[k].companyName && p.businessId == rows[k].businessId
      && (rows[k].id == id ==> p.role == Some(role))
      && (rows[k].id != id ==> p.role == rows[k].role)
  {
  }

  /** The `profiles` table, whose ids are unique (its primary key). */
  class ProfileTable {
    var rows: seq<Profile>

    predicate Valid()
      reads this
    {
      forall i, j :: 0 <= i < j < |rows| ==> rows[i].id != rows[j].id
    }

    constructor(initial: seq<Profile>)
      requires forall i, j :: 0 <= i < j < |initial| ==> initial[i].id != initial[j].id
      ensures Valid() && rows == initial
    {
      rows := initial;
    }

    /** `deleteUser`: the soft delete marks the profile inactive; an unknown
        id updates nothing and is not an error. */
    method DeleteUser(id: string)
      requires Valid()
      modifies this
      ensures Valid()
      ensures rows == SetRole(old(rows), id, Inactive)
    {
      rows := SetRole(rows, id, Inactive);
    }

    /** `restoreUser`: sets the role to "user" and returns the updated row;
        `.single()` turns "no such profile" into an error. */
    method RestoreUser(id: string) returns (result: Result<Profile, string>)
      requires Valid()
      modifies this
      ensures Valid()
      ensures rows == SetRole(old(rows), id, UserRoleName)
      ensures result.Ok? <==> exists k :: 0 <= k < |old(rows)| && old(rows)[k].id == id
      ensures result.Ok? ==> result.value in rows && result.value.id == id && result.value.role == Some(UserRoleName)
    {
      var k := 0;
      while k < |rows| && rows[k].id != id
        invariant 0 <= k <= |rows|
        invariant forall j :: 0 <= j < k ==> rows[j].id != id
      {
        k := k + 1;
      }
      rows := SetRole(rows, id, UserRoleName);
      if k < |rows| {
        result := Ok(rows[k]);
      } else {
        result := Err("JSON object requested, multiple (or no) rows returned");
      }
    }
  }

  // ---------------------------------------------------------------------
  // inviteUser

  datatype UserRole = Admin | Business | User

  function RoleName(r: UserRole): string
  {
    match r
    case Admin => "admin"
    case Business => "business"
    case User => "user"
  }

  /** The profile row `inviteUser` inserts. */
  datatype NewProfile = NewProfile(userId: string, fullName: string, companyName: string, role: string)

  /** `fullName || ''` on an optional string. */
  function OrEmpty(s: Option<string>): (r: string)
    ensures s.None? ==> r == ""
    ensures s.Some? ==> r == s.value
  {
    if s.Some? then s.value else ""
  }

  /** The profile for the freshly created auth user: names default to the
      empty string, and the role is the invited one. */
  function InviteProfile(authUserId: string, role: UserRole, fullName: Option<string>, companyName: Option<string>): (p: NewProfile)
    ensures p.userId == authUserId && p.role == RoleName(role) && p.role != Inactive
    ensures p.fullName == OrEmpty(fullName) && p.companyName == OrEmpty(companyName)
  {
    NewProfile(authUserId, OrEmpty(fullName), OrEmpty(companyName), RoleName(role))
  }
}

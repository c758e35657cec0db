/**
  A group of users: its attributes, its three pivot relations (members,
  leaders, granted permissions) and the operations that change them, plus
  the users' primary-group column, which assigning a user may overwrite.
 */
module Membership {
  import Pivot
  import opened Permissions

  type UserId = nat
  type GroupId = nat

  /** The user side: each user's `primary_group_id`; a user without an entry has none. */
  class Users {
    var primaryGroup: map<UserId, GroupId>

    constructor (primaryGroup: map<UserId, GroupId>)
      ensures this.primaryGroup == primaryGroup
    {
      this.primaryGroup := primaryGroup;
    }
  }

  class Group {
    const id: GroupId
    var name: string
    var openTag: string
    var closeTag: string
    /** The capacity of the group; 0 means that it has none. */
    var limit: int
    /** The `user_groups` rows of this group. */
    var members: seq<UserId>
    /** The `group_leaders` rows of this group. */
    var leaders: seq<UserId>
    /** The `group_permissions` rows of this group. */
    var permissions: seq<PermissionId>

    constructor (id: GroupId, name: string, openTag: string, closeTag: string, limit: int)
      ensures this.id == id && this.name == name && this.limit == limit
      ensures this.openTag == openTag && this.closeTag == closeTag
      ensures members == [] && leaders == [] && permissions == []
      ensures WithinLimit() && MemberCount() == 0
    {
      this.id := id;
      this.name := name;
      this.openTag := openTag;
      this.closeTag := closeTag;
      this.limit := limit;
      members := [];
      leaders := [];
      permissions := [];
    }

    /** The number of membership rows, each one counted: a user with two rows counts twice. */
    function MemberCount(): (n: nat)
      reads this
      ensures n == |multiset(members)|
    {
      |members|
    }

    /**
      Whether the group is full. A limit of 0 never fills; a positive limit
      fills once the rows reach it; a negative limit is full at any count.
     */
    predicate LimitExceeded()
      reads this
      ensures limit == 0 ==> !LimitExceeded()
      ensures limit > 0 ==> (LimitExceeded() <==> MemberCount() >= limit)
      ensures limit < 0 ==> LimitExceeded()
    {
      limit != 0 && MemberCount() >= limit
    }

    /** The capacity invariant: a group with a positive limit holds at most that many rows. */
    predicate WithinLimit()
      reads this
    {
      limit > 0 ==> MemberCount() <= limit
    }

    /** The display name: the name between the opening and the closing tag. */
    function FormattedName(): (r: string)
      reads this
      ensures |r| == |openTag| + |name| + |closeTag|
      ensures r[..|openTag|] == openTag
      ensures r[|openTag|..|openTag| + |name|] == name
      ensures r[|openTag| + |name|..] == closeTag
    {
      openTag + name + closeTag
    }

    predicate HasAssigned(u: UserId)
      reads this
      ensures HasAssigned(u) <==> multiset(members)[u] > 0
    {
      u in members
    }

    predicate HasLeader(u: UserId)
      reads this
      ensures HasLeader(u) <==> multiset(leaders)[u] > 0
    {
      u in leaders
    }

    /**
      Assigns `u` to the group unless it is full, and then makes this group
      `u`'s primary group when `primary` is set. A full group is left as it
      is and so are the users.
     */
    method Assign(u: UserId, primary: bool, users: Users) returns (ok: bool)
      modifies this`members, users
      ensures ok == !old(LimitExceeded())
      ensures members == if ok then Pivot.Attach(old(members), u) else old(members)
      ensures MemberCount() == old(MemberCount()) + (if ok then 1 else 0)
      ensures ok ==> HasAssigned(u)
      ensures users.primaryGroup == if ok && primary then old(users.primaryGroup)[u := id] else old(users.primaryGroup)
      ensures old(WithinLimit()) ==> WithinLimit()
      ensures leaders == old(leaders) && permissions == old(permissions)
    {
      if LimitExceeded() {
        return false;
      }
      members := Pivot.Attach(members, u);
      if primary {
        users.primaryGroup := users.primaryGroup[u := id];
      }
      return true;
    }

    /**
      Removes every membership row of `u`. Other users' rows, the leaders,
      the permissions and every primary group stay as they are.
     */
    method Retract(u: UserId)
      modifies this`members
      ensures members == Pivot.Detach(old(members), u)
      ensures !HasAssigned(u)
      ensures forall v :: v != u ==> multiset(members)[v] == old(multiset(members)[v])
      ensures old(WithinLimit()) ==> WithinLimit()
      ensures leaders == old(leaders) && permissions == old(permissions)
    {
      members := Pivot.Detach(members, u);
    }

    /** Adds a leader row for `u`, who need not be a member; membership is untouched. */
    method AddLeader(u: UserId)
      modifies this`leaders
      ensures leaders == Pivot.Attach(old(leaders), u)
      ensures HasLeader(u)
      ensures members == old(members) && permissions == old(permissions)
      ensures MemberCount() == old(MemberCount()) && LimitExceeded() == old(LimitExceeded())
    {
      leaders := Pivot.Attach(leaders, u);
    }

    /** Removes every leader row of `u`; membership is untouched. */
    method RemoveLeader(u: UserId)
      modifies this`leaders
      ensures leaders == Pivot.Detach(old(leaders), u)
      ensures !HasLeader(u)
      ensures members == old(members) && permissions == old(permissions)
      ensures MemberCount() == old(MemberCount()) && LimitExceeded() == old(LimitExceeded())
    {
      leaders := Pivot.Detach(leaders, u);
    }

    /**
      Grants the referenced permissions one at a time, in list order, each
      resolved just before it is attached. The first reference that does not
      resolve stops the loop, and the grants made before it remain.
     */
    method GrantPermissions(arg: Argument, catalog: Catalog) returns (outcome: Outcome)
      modifies this`permissions
      ensures Batch(permissions, outcome) == ApplyFrom(catalog, Grant, old(permissions), References(arg), 0)
      ensures var refs := References(arg);
        var k := Batch(permissions, outcome).Processed(|refs|);
        && k <= |refs|
        && (forall j :: 0 <= j < |refs[0..k]| ==> Resolves(catalog, refs[0..k][j]))
        && permissions == old(permissions) + ResolvedIds(catalog, refs[0..k])
      ensures members == old(members) && leaders == old(leaders)
    {
      var refs := References(arg);
      var i := 0;
      while i < |refs|
        invariant i <= |refs|
        invariant ApplyFrom(catalog, Grant, old(permissions), refs, 0) == ApplyFrom(catalog, Grant, permissions, refs, i)
      {
        var resolved := Resolve(catalog, refs[i]);
        if resolved.None? {
          outcome := Aborted(i);
          GrantBatch(catalog, old(permissions), refs, 0);
          return;
        }
        permissions := Pivot.Attach(permissions, resolved.value.id);
        i := i + 1;
      }
      outcome := Completed;
      GrantBatch(catalog, old(permissions), refs, 0);
    }

    /**
      Revokes the referenced permissions one at a time, in list order, each
      resolved just before it is detached. The first reference that does not
      resolve stops the loop, and the revocations made before it remain.
     */
    method LosePermissions(arg: Argument, catalog: Catalog) returns (outcome: Outcome)
      modifies this`permissions
      ensures Batch(permissions, outcome) == ApplyFrom(catalog, Revoke, old(permissions), References(arg), 0)
      ensures var refs := References(arg);
        var k := Batch(permissions, outcome).Processed(|refs|);
        && k <= |refs|
        && (forall j :: 0 <= j < |refs[0..k]| ==> Resolves(catalog, refs[0..k][j]))
        && (forall q :: q in ResolvedIds(catalog, refs[0..k]) ==> q !in permissions)
        && (forall q :: q !in ResolvedIds(catalog, refs[0..k]) ==> multiset(permissions)[q] == old(multiset(permissions))[q])
      ensures members == old(members) && leaders == old(leaders)
    {
      var refs := References(arg);
      var i := 0;
      while i < |refs|
        invariant i <= |refs|
        invariant ApplyFrom(catalog, Revoke, old(permissions), refs, 0) == ApplyFrom(catalog, Revoke, permissions, refs, i)
      {
        var resolved := Resolve(catalog, refs[i]);
        if resolved.None? {
          outcome := Aborted(i);
          RevokeBatch(catalog, old(permissions), refs, 0);
          return;
        }
        permissions := Pivot.Detach(permissions, resolved.value.id);
        i := i + 1;
      }
      outcome := Completed;
      RevokeBatch(catalog, old(permissions), refs, 0);
    }
  }
}

/** The member list of the desktop client (apps/desktop/src/ui/Members.tsx):
    members bucketed by role, the buckets shown in rank order, and the
    name and status shown for each member. */
module MembersView {
  import opened Common

  /** The roles as the list orders them, highest first. */
  const ROLE_ORDER: seq<string> := ["OWNER", "ADMIN", "MOD", "MEMBER"]

  datatype UserInfo = UserInfo(id: string, username: Option<string>, status: Option<string>)

  /** A member as the API returns it; `role` and `user` may be absent. */
  datatype MemberRow = MemberRow(id: string, role: Option<string>, user: Option<UserInfo>)

  /** `m.role ?? 'MEMBER'`. */
  function RoleOf(m: MemberRow): (r: string)
    ensures m.role.None? ==> r == "MEMBER"
    ensures m.role.Some? ==> r == m.role.value
  {
    m.role.GetOr("MEMBER")
  }

  /** The members of `s` whose bucket is `role`, in their order in `s`. */
  function InBucket(s: seq<MemberRow>, role: string): (r: seq<MemberRow>)
    ensures |r| <= |s|
  {
    if s == [] then []
    else InBucket(s[..|s| - 1], role) + (if RoleOf(s[|s| - 1]) == role then [s[|s| - 1]] else [])
  }

  /** A member is in the bucket of `role` exactly when it is in the list
      and its role is `role`. */
  lemma {:induction false} InBucketMembers(s: seq<MemberRow>, role: string, m: MemberRow)
    ensures m in InBucket(s, role) <==> m in s && RoleOf(m) == role
    decreases |s|
  {
    if s != [] {
      var init, last := s[..|s| - 1], s[|s| - 1];
      InBucketMembers(init, role, m);
      assert s == init + [last];
    }
  }

  lemma {:induction false} InBucketAppend(s: seq<MemberRow>, m: MemberRow, role: string)
    ensures InBucket(s + [m], role) == InBucket(s, role) + (if RoleOf(m) == role then [m] else [])
  {
    assert (s + [m])[..|s|] == s;
  }

  /** The members whose role is none of the four. */
  function Unranked(s: seq<MemberRow>): (r: seq<MemberRow>)
    ensures forall m :: m in r <==> m in s && RoleOf(m) !in ROLE_ORDER
  {
    if s == [] then []
    else Unranked(s[..|s| - 1]) + (if RoleOf(s[|s| - 1]) !in ROLE_ORDER then [s[|s| - 1]] else [])
  }

  lemma {:induction false} UnrankedAppend(s: seq<MemberRow>, m: MemberRow)
    ensures Unranked(s + [m]) == Unranked(s) + (if RoleOf(m) !in ROLE_ORDER then [m] else [])
  {
    assert (s + [m])[..|s|] == s;
  }

  /** A role is one of the four ranked roles, or none of them. */
  lemma OneBucket(k: string)
    ensures (if k == "OWNER" then 1 else 0) + (if k == "ADMIN" then 1 else 0) + (if k == "MOD" then 1 else 0)
            + (if k == "MEMBER" then 1 else 0) + (if k !in ROLE_ORDER then 1 else 0) == 1
  {
    assert "OWNER" != "ADMIN" && "OWNER" != "MOD" && "OWNER" != "MEMBER";
    assert "ADMIN" != "MOD" && "ADMIN" != "MEMBER" && "MOD" != "MEMBER";
  }

  /** Every member is in exactly one bucket: the four ranked buckets and
      the members with other roles together count every member once. */
  lemma {:induction false} BucketsPartition(s: seq<MemberRow>)
    ensures |InBucket(s, "OWNER")| + |InBucket(s, "ADMIN")| + |InBucket(s, "MOD")| + |InBucket(s, "MEMBER")|
            + |Unranked(s)| == |s|
    decreases |s|
  {
    if s != [] {
      var init, last := s[..|s| - 1], s[|s| - 1];
      assert s == init + [last];
      BucketsPartition(init);
      InBucketAppend(init, last, "OWNER");
      InBucketAppend(init, last, "ADMIN");
      InBucketAppend(init, last, "MOD");
      InBucketAppend(init, last, "MEMBER");
      UnrankedAppend(init, last);
      OneBucket(RoleOf(last));
    }
  }

  /** The four ranked roles all have a bucket. */
  ghost predicate RankedKeys(groups: map<string, seq<MemberRow>>) {
    forall role :: role in ROLE_ORDER ==> role in groups
  }

  /** A bucket of any other role exists only because a member has it. */
  ghost predicate ExtraKeysUsed(groups: map<string, seq<MemberRow>>) {
    forall role :: role in groups && role !in ROLE_ORDER ==> groups[role] != []
  }

  /** Every bucket present is `InBucket(s, role)`; an absent one would be empty. */
  ghost predicate BucketsOf(groups: map<string, seq<MemberRow>>, s: seq<MemberRow>) {
    && (forall role :: role in groups ==> groups[role] == InBucket(s, role))
    && (forall role :: role !in groups ==> InBucket(s, role) == [])
  }

  /** `groups` holds the buckets of `s`: one for each of the four roles and
      one for each other role some member of `s` has. */
  ghost predicate Bucketed(groups: map<string, seq<MemberRow>>, s: seq<MemberRow>) {
    RankedKeys(groups) && ExtraKeysUsed(groups) && BucketsOf(groups, s)
  }

  /** The four empty buckets the memo starts from. */
  function Empties(): map<string, seq<MemberRow>> {
    map["OWNER" := [], "ADMIN" := [], "MOD" := [], "MEMBER" := []]
  }

  /** `(g[role] ??= []).push(m)` for the member's role. */
  function Push(groups: map<string, seq<MemberRow>>, m: MemberRow): map<string, seq<MemberRow>> {
    groups[RoleOf(m) := (if RoleOf(m) in groups then groups[RoleOf(m)] else []) + [m]]
  }

  /** The buckets after pushing the members of `s` in order onto `Empties()`. */
  function GroupedOf(s: seq<MemberRow>): map<string, seq<MemberRow>> {
    if s == [] then Empties() else Push(GroupedOf(s[..|s| - 1]), s[|s| - 1])
  }

  lemma FourEmptyBuckets()
    ensures Bucketed(Empties(), [])
  {
    var g := Empties();
    assert forall role :: role in ROLE_ORDER <==> role in g;
    assert forall role :: role in g ==> g[role] == [];
  }

  /** Pushing one more member onto its bucket keeps the buckets those of
      the longer list. */
  lemma {:induction false} PushKeepsBuckets(groups: map<string, seq<MemberRow>>, members: seq<MemberRow>)
    requires members != []
    requires Bucketed(groups, members[..|members| - 1])
    ensures Bucketed(Push(groups, members[|members| - 1]), members)
  {
    var s, m := members[..|members| - 1], members[|members| - 1];
    assert members == s + [m];
    var after := Push(groups, m);
    assert RankedKeys(after) by {
      assert RankedKeys(groups);
    }
    assert ExtraKeysUsed(after) by {
      assert ExtraKeysUsed(groups);
    }
    assert BucketsOf(after, s + [m]) by {
      assert BucketsOf(groups, s);
      forall r | r in after ensures after[r] == InBucket(s + [m], r) {
        InBucketAppend(s, m, r);
      }
      forall r | r !in after ensures InBucket(s + [m], r) == [] {
        InBucketAppend(s, m, r);
      }
    }
  }

  /** The memo holds exactly the buckets of the member list. */
  lemma {:induction false} GroupedOfBuckets(s: seq<MemberRow>)
    ensures Bucketed(GroupedOf(s), s)
    decreases |s|
  {
    if s == [] {
      FourEmptyBuckets();
    } else {
      GroupedOfBuckets(s[..|s| - 1]);
      PushKeepsBuckets(GroupedOf(s[..|s| - 1]), s);
    }
  }

  /** The `grouped` memo: a bucket for each of the four roles, created
      empty, and one more for each other role that some member has; each
      member is pushed onto its role's bucket in order. */
  method Grouped(members: seq<MemberRow>) returns (groups: map<string, seq<MemberRow>>)
    ensures forall role :: role in groups <==> role in ROLE_ORDER || InBucket(members, role) != []
    ensures forall role :: role in groups ==> groups[role] == InBucket(members, role)
  {
    groups := map["OWNER" := [], "ADMIN" := [], "MOD" := [], "MEMBER" := []];
    var i := 0;
    while i < |members|
      invariant 0 <= i <= |members|
      invariant groups == GroupedOf(members[..i])
    {
      var m := members[i];
      var role := RoleOf(m);
      if role !in groups {
        groups := groups[role := []];
      }
      groups := groups[role := groups[role] + [m]];
      assert members[..i + 1] == members[..i] + [m];
      i := i + 1;
    }
    assert members[..i] == members;
    GroupedOfBuckets(members);
    assert RankedKeys(groups) && ExtraKeysUsed(groups) && BucketsOf(groups, members);
  }

  /** The sections the list renders: the roles of `ROLE_ORDER`, in that
      order and each at most once, whose bucket is not empty (a missing
      bucket counts as empty); buckets of other roles are never shown. */
  function Rendered(groups: map<string, seq<MemberRow>>): (r: seq<(string, seq<MemberRow>)>)
    ensures forall i :: 0 <= i < |r| ==> r[i].0 in ROLE_ORDER && r[i].0 in groups && r[i].1 == groups[r[i].0] && r[i].1 != []
    ensures forall role :: role in ROLE_ORDER && role in groups && groups[role] != [] ==> (role, groups[role]) in r
    ensures forall i, j :: 0 <= i < j < |r| ==> InOrder(ROLE_ORDER, r[i].0, r[j].0)
    ensures forall i, j :: 0 <= i < j < |r| ==> r[i].0 != r[j].0
  {
    var r := RenderedFrom(groups, ROLE_ORDER);
    assert forall a, b :: 0 <= a < b < |ROLE_ORDER| ==> ROLE_ORDER[a] != ROLE_ORDER[b] by {
      assert "OWNER" != "ADMIN" && "OWNER" != "MOD" && "OWNER" != "MEMBER";
      assert "ADMIN" != "MOD" && "ADMIN" != "MEMBER" && "MOD" != "MEMBER";
    }
    r
  }

  /** `x` comes strictly before `y` in `roles`. */
  ghost predicate InOrder(roles: seq<string>, x: string, y: string) {
    exists a, b :: 0 <= a < b < |roles| && roles[a] == x && roles[b] == y
  }

  /** Sections for the first role, then sections in the order of the
      remaining roles, are in the order of all the roles. */
  lemma {:induction false} ConsInOrder(roles: seq<string>, head: seq<(string, seq<MemberRow>)>, rest: seq<(string, seq<MemberRow>)>)
    requires roles != [] && |head| <= 1 && (head != [] ==> head[0].0 == roles[0])
    requires forall i :: 0 <= i < |rest| ==> rest[i].0 in roles[1..]
    requires forall i, j :: 0 <= i < j < |rest| ==> InOrder(roles[1..], rest[i].0, rest[j].0)
    ensures forall i, j :: 0 <= i < j < |head + rest| ==> InOrder(roles, (head + rest)[i].0, (head + rest)[j].0)
  {
    forall i, j | 0 <= i < j < |head + rest| ensures InOrder(roles, (head + rest)[i].0, (head + rest)[j].0) {
      var k := j - |head|;
      assert (head + rest)[j] == rest[k];
      if i < |head| {
        var b :| 0 <= b < |roles[1..]| && roles[1..][b] == rest[k].0;
        assert roles[0] == (head + rest)[i].0 && roles[b + 1] == rest[k].0;
      } else {
        assert (head + rest)[i] == rest[i - |head|];
        assert InOrder(roles[1..], rest[i - |head|].0, rest[k].0);
        var a, b :| 0 <= a < b < |roles[1..]| && roles[1..][a] == rest[i - |head|].0 && roles[1..][b] == rest[k].0;
        assert roles[a + 1] == rest[i - |head|].0 && roles[b + 1] == rest[k].0;
      }
    }
  }

  function RenderedFrom(groups: map<string, seq<MemberRow>>, roles: seq<string>): (r: seq<(string, seq<MemberRow>)>)
    ensures forall i :: 0 <= i < |r| ==> r[i].0 in roles && r[i].0 in groups && r[i].1 == groups[r[i].0] && r[i].1 != []
    ensures forall role :: role in roles && role in groups && groups[role] != [] ==> (role, groups[role]) in r
    ensures forall i, j :: 0 <= i < j < |r| ==> InOrder(roles, r[i].0, r[j].0)
  {
    if roles == [] then []
    else
      var head := if roles[0] in groups && groups[roles[0]] != [] then [(roles[0], groups[roles[0]])] else [];
      var rest := RenderedFrom(groups, roles[1..]);
      assert forall role :: role in roles ==> role == roles[0] || role in roles[1..];
      ConsInOrder(roles, head, rest);
      head + rest
  }

  /** Members of the four ranks are all shown, in their own section; a
      member with any other role is not shown. */
  lemma {:induction false} ShownIffRanked(members: seq<MemberRow>, groups: map<string, seq<MemberRow>>, m: MemberRow)
    requires forall role :: role in groups ==> groups[role] == InBucket(members, role)
    requires m in members
    ensures RoleOf(m) in ROLE_ORDER && RoleOf(m) in groups ==>
      (RoleOf(m), groups[RoleOf(m)]) in Rendered(groups) && m in groups[RoleOf(m)]
    ensures RoleOf(m) !in ROLE_ORDER ==>
      forall i :: 0 <= i < |Rendered(groups)| ==> m !in Rendered(groups)[i].1
  {
    var r := Rendered(groups);
    InBucketMembers(members, RoleOf(m), m);
    forall i | 0 <= i < |r| ensures RoleOf(m) !in ROLE_ORDER ==> m !in r[i].1 {
      assert r[i].1 == InBucket(members, r[i].0);
      InBucketMembers(members, r[i].0, m);
    }
  }

  /** `m.user?.username ?? 'User'`. */
  function DisplayName(m: MemberRow): (r: string)
    ensures m.user.Some? && m.user.value.username.Some? ==> r == m.user.value.username.value
    ensures m.user.None? || m.user.value.username.None? ==> r == "User"
  {
    if m.user.Some? && m.user.value.username.Some? then m.user.value.username.value else "User"
  }

  /** The key `presence[m.user?.id]` looks up: the user's id, or the
      string "undefined" for a member without a user. */
  function PresenceKey(m: MemberRow): (r: string)
    ensures m.user.Some? ==> r == m.user.value.id
    ensures m.user.None? ==> r == "undefined"
  {
    if m.user.Some? then m.user.value.id else "undefined"
  }

  /** `presence[m.user?.id] ?? m.user?.status ?? 'OFFLINE'`: the live
      presence, else the stored status, else OFFLINE. */
  function DisplayedStatus(presence: map<string, string>, m: MemberRow): (r: string)
    ensures PresenceKey(m) in presence ==> r == presence[PresenceKey(m)]
    ensures PresenceKey(m) !in presence && m.user.Some? && m.user.value.status.Some? ==> r == m.user.value.status.value
    ensures PresenceKey(m) !in presence && (m.user.None? || m.user.value.status.None?) ==> r == "OFFLINE"
  {
    if PresenceKey(m) in presence then presence[PresenceKey(m)]
    else if m.user.Some? && m.user.value.status.Some? then m.user.value.status.value
    else "OFFLINE"
  }
}

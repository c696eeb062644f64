/** The voice manager: a registry of defended users and the member selection
    of the mass mute, unmute, defend and disconnect actions. Which platform
    calls throw is a caller-supplied set of member ids. */
module Voice {
  import opened Common

  datatype VoiceMember = VoiceMember(id: string, username: string, inVoice: bool, bot: bool, serverMute: bool)

  /** `{ count, totalUsers, failedUsers }` of a mass action. */
  datatype MassResult = MassResult(count: nat, totalUsers: nat, failedUsers: seq<string>)

  datatype Channel = Channel(channelType: int, name: string)

  datatype MoveResult = NotInVoice | InvalidTarget | Moved

  predicate MuteTarget(m: VoiceMember, executorId: string, ownerId: string, defended: seq<string>) {
    m.inVoice && !m.bot && m.id != executorId && m.id != ownerId && m.id !in defended
  }

  predicate UnmuteTarget(m: VoiceMember) {
    m.inVoice && !m.bot && m.serverMute
  }

  predicate DisconnectTarget(m: VoiceMember, executorId: string, ownerId: string) {
    m.inVoice && !m.bot && m.id != executorId && m.id != ownerId
  }

  predicate DefendTarget(m: VoiceMember) {
    m.inVoice && !m.bot
  }

  /** The member filter of `muteAll`, in cache order. */
  function MuteTargets(members: seq<VoiceMember>, executorId: string, ownerId: string, defended: seq<string>): (r: seq<VoiceMember>)
    ensures |r| <= |members|
    ensures forall m :: m in r <==> m in members && MuteTarget(m, executorId, ownerId, defended)
  {
    if members == [] then []
    else
      var init := members[..|members| - 1];
      var m := members[|members| - 1];
      assert forall x :: x in members <==> x in init || x == m;
      MuteTargets(init, executorId, ownerId, defended) + (if MuteTarget(m, executorId, ownerId, defended) then [m] else [])
  }

  /** The member filter of `unmuteAll`. */
  function UnmuteTargets(members: seq<VoiceMember>): (r: seq<VoiceMember>)
    ensures |r| <= |members|
    ensures forall m :: m in r <==> m in members && UnmuteTarget(m)
  {
    if members == [] then []
    else
      var init := members[..|members| - 1];
      var m := members[|members| - 1];
      assert forall x :: x in members <==> x in init || x == m;
      UnmuteTargets(init) + (if UnmuteTarget(m) then [m] else [])
  }

  /** The member filter of `disconnectAll`. */
  function DisconnectTargets(members: seq<VoiceMember>, executorId: string, ownerId: string): (r: seq<VoiceMember>)
    ensures |r| <= |members|
    ensures forall m :: m in r <==> m in members && DisconnectTarget(m, executorId, ownerId)
  {
    if members == [] then []
    else
      var init := members[..|members| - 1];
      var m := members[|members| - 1];
      assert forall x :: x in members <==> x in init || x == m;
      DisconnectTargets(init, executorId, ownerId) + (if DisconnectTarget(m, executorId, ownerId) then [m] else [])
  }

  /** The member filter of `defendAll`. */
  function DefendTargets(members: seq<VoiceMember>): (r: seq<VoiceMember>)
    ensures |r| <= |members|
    ensures forall m :: m in r <==> m in members && DefendTarget(m)
  {
    if members == [] then []
    else
      var init := members[..|members| - 1];
      var m := members[|members| - 1];
      assert forall x :: x in members <==> x in init || x == m;
      DefendTargets(init) + (if DefendTarget(m) then [m] else [])
  }

  /** The usernames pushed to `failedUsers`: targets whose call throws. */
  function FailedNames(targets: seq<VoiceMember>, fails: set<string>): (r: seq<string>)
    ensures |r| <= |targets|
  {
    if targets == [] then []
    else
      var m := targets[|targets| - 1];
      FailedNames(targets[..|targets| - 1], fails) + (if m.id in fails then [m.username] else [])
  }

  function SucceededCount(targets: seq<VoiceMember>, fails: set<string>): (n: nat)
    ensures n + |FailedNames(targets, fails)| == |targets|
  {
    if targets == [] then 0
    else SucceededCount(targets[..|targets| - 1], fails) + (if targets[|targets| - 1].id in fails then 0 else 1)
  }

  /** Tries the platform call on each target in order, counting successes and
      collecting the usernames of failures. */
  method ActOnEach(targets: seq<VoiceMember>, fails: set<string>) returns (r: MassResult)
    ensures r.totalUsers == |targets|
    ensures r.count == SucceededCount(targets, fails) && r.failedUsers == FailedNames(targets, fails)
    ensures r.count + |r.failedUsers| == r.totalUsers
  {
    var count := 0;
    var failed: seq<string> := [];
    var i := 0;
    while i < |targets|
      invariant 0 <= i <= |targets|
      invariant count == SucceededCount(targets[..i], fails)
      invariant failed == FailedNames(targets[..i], fails)
    {
      assert targets[..i + 1][..i] == targets[..i];
      if targets[i].id in fails {
        failed := failed + [targets[i].username];
      } else {
        count := count + 1;
      }
      i := i + 1;
    }
    assert targets[..i] == targets;
    r := MassResult(count, |targets|, failed);
  }

  /** `moveUser`'s two guards, checked before any move. */
  function MoveUser(member: VoiceMember, target: Option<Channel>): (r: MoveResult)
    ensures r == Moved <==> member.inVoice && target.Some? && target.value.channelType == 2
    ensures !member.inVoice ==> r == NotInVoice
    ensures member.inVoice && (target.None? || target.value.channelType != 2) ==> r == InvalidTarget
  {
    if !member.inVoice then NotInVoice
    else if target.None? || target.value.channelType != 2 then InvalidTarget
    else Moved
  }

  /** Nobody protected from a mass mute or disconnect is ever targeted. */
  lemma ProtectedNeverTargeted(members: seq<VoiceMember>, executorId: string, ownerId: string,
                               defended: seq<string>, m: VoiceMember)
    requires m.bot || m.id == executorId || m.id == ownerId
    ensures m !in MuteTargets(members, executorId, ownerId, defended)
    ensures m !in DisconnectTargets(members, executorId, ownerId)
  {
  }

  /** A mute target is also a disconnect target: mute-all selects a subset. */
  lemma MuteTargetsWithinDisconnect(members: seq<VoiceMember>, executorId: string, ownerId: string, defended: seq<string>)
    ensures forall m :: m in MuteTargets(members, executorId, ownerId, defended) ==> m in DisconnectTargets(members, executorId, ownerId)
    ensures |MuteTargets(members, executorId, ownerId, [])| == |DisconnectTargets(members, executorId, ownerId)|
  {
    MuteEmptyDefended(members, executorId, ownerId);
  }

  lemma {:induction false} MuteEmptyDefended(members: seq<VoiceMember>, executorId: string, ownerId: string)
    ensures MuteTargets(members, executorId, ownerId, []) == DisconnectTargets(members, executorId, ownerId)
  {
    if members != [] {
      MuteEmptyDefended(members[..|members| - 1], executorId, ownerId);
    }
  }

  class VoiceManager {
    /** The defended-user Set, in insertion order. */
    var defendedUsers: seq<string>

    ghost predicate Valid()
      reads this
    {
      NoDup(defendedUsers)
    }

    constructor ()
      ensures Valid() && defendedUsers == []
    {
      defendedUsers := [];
    }

    /** A defended user is exempt from every mass mute, whoever runs it. */
    predicate IsDefended(userId: string)
      reads this
      ensures IsDefended(userId) ==> forall m: VoiceMember, executorId: string, ownerId: string ::
                m.id == userId ==> !MuteTarget(m, executorId, ownerId, defendedUsers)
    {
      userId in defendedUsers
    }

    method DefendUser(userId: string) returns (ok: bool)
      requires Valid()
      modifies this
      ensures Valid() && ok
      ensures IsDefended(userId)
      ensures defendedUsers == Insert(old(defendedUsers), userId)
    {
      defendedUsers := Insert(defendedUsers, userId);
      ok := true;
    }

    method UndefendUser(userId: string) returns (wasDefended: bool)
      requires Valid()
      modifies this
      ensures Valid()
      ensures wasDefended == (userId in old(defendedUsers))
      ensures !IsDefended(userId)
      ensures forall u :: u != userId ==> (IsDefended(u) <==> old(IsDefended(u)))
      ensures defendedUsers == Without(old(defendedUsers), userId)
    {
      wasDefended := userId in defendedUsers;
      WithoutNoDup(defendedUsers, userId);
      defendedUsers := Without(defendedUsers, userId);
    }

    /** Adds every in-voice human; the count is the number of such members. */
    method DefendAll(members: seq<VoiceMember>) returns (defendedCount: nat, totalUsers: nat)
      requires Valid()
      modifies this
      ensures Valid()
      ensures defendedCount == totalUsers == |DefendTargets(members)|
      ensures forall m :: m in members && DefendTarget(m) ==> IsDefended(m.id)
      ensures forall u :: IsDefended(u) <==> old(IsDefended(u)) || exists m :: m in members && DefendTarget(m) && m.id == u
    {
      var targets := DefendTargets(members);
      defendedCount := 0;
      var i := 0;
      while i < |targets|
        invariant 0 <= i <= |targets| && defendedCount == i
        invariant Valid()
        invariant forall u :: u in defendedUsers <==> u in old(defendedUsers) || exists k :: 0 <= k < i && targets[k].id == u
      {
        defendedUsers := Insert(defendedUsers, targets[i].id);
        defendedCount := defendedCount + 1;
        i := i + 1;
      }
      totalUsers := |targets|;
      forall u ensures IsDefended(u) <==> old(IsDefended(u)) || exists m :: m in members && DefendTarget(m) && m.id == u {
        if exists m :: m in members && DefendTarget(m) && m.id == u {
          var m :| m in members && DefendTarget(m) && m.id == u;
          var k :| 0 <= k < |targets| && targets[k] == m;
        }
      }
    }

    method UndefendAll() returns (previousCount: nat)
      modifies this
      ensures Valid()
      ensures previousCount == |old(defendedUsers)|
      ensures defendedUsers == []
    {
      previousCount := |defendedUsers|;
      defendedUsers := [];
    }

    function GetDefendedUsers(): (r: seq<string>)
      reads this
      ensures forall u :: u in r <==> IsDefended(u)
    {
      defendedUsers
    }

    method MuteAll(members: seq<VoiceMember>, executorId: string, ownerId: string, fails: set<string>)
      returns (r: MassResult, targets: seq<VoiceMember>)
      ensures targets == MuteTargets(members, executorId, ownerId, defendedUsers)
      ensures forall m :: m in targets <==> m in members && m.inVoice && !m.bot && m.id != executorId && m.id != ownerId && !IsDefended(m.id)
      ensures r.totalUsers == |targets| && r.count + |r.failedUsers| == r.totalUsers
      ensures r.failedUsers == FailedNames(targets, fails)
    {
      targets := MuteTargets(members, executorId, ownerId, defendedUsers);
      r := ActOnEach(targets, fails);
    }

    method UnmuteAll(members: seq<VoiceMember>, fails: set<string>) returns (r: MassResult, targets: seq<VoiceMember>)
      ensures targets == UnmuteTargets(members)
      ensures forall m :: m in targets <==> m in members && m.inVoice && !m.bot && m.serverMute
      ensures r.totalUsers == |targets| && r.count + |r.failedUsers| == r.totalUsers
      ensures r.failedUsers == FailedNames(targets, fails)
    {
      targets := UnmuteTargets(members);
      r := ActOnEach(targets, fails);
    }

    method DisconnectAll(members: seq<VoiceMember>, executorId: string, ownerId: string, fails: set<string>)
      returns (r: MassResult, targets: seq<VoiceMember>)
      ensures targets == DisconnectTargets(members, executorId, ownerId)
      ensures forall m :: m in targets ==> m.id != executorId && m.id != ownerId && !m.bot
      ensures forall m :: m in members && DisconnectTarget(m, executorId, ownerId) ==> m in targets
      ensures r.totalUsers == |targets| && r.count + |r.failedUsers| == r.totalUsers
      ensures r.failedUsers == FailedNames(targets, fails)
    {
      targets := DisconnectTargets(members, executorId, ownerId);
      r := ActOnEach(targets, fails);
    }
  }
}

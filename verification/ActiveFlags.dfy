/** The services store no active flag that cannot be read as a truth value, so that the
    cast in the users' list query never fails on what they write. */
module ActiveFlags {
  import opened Text
  import opened ScimPatch
  import opened GroupStore
  import opened FilterAnswers
  import GroupPatch
  import GroupService
  import UserPatch
  import UserService

  lemma UserPatchCastable(env: Env, s: Props, ops: seq<PatchOp>, r: Result<Props, PatchError>)
    requires PatchOutcome(UserPatch.Users(), env, s, ops, r) && Castable(s)
    ensures r.Ok? ==> Castable(r.value)
  {
    var keep := (x: Props) => Castable(x);
    forall mode, p, raw, x | UserPatch.DecodeUser(env, mode, p, raw).Ok? && keep(x)
      ensures keep(UserPatch.ApplyUser(UserPatch.DecodeUser(env, mode, p, raw).value, x))
    {
      UserPatch.DecodedKeys(env, mode, p, raw);
    }
    PatchKeeps(UserPatch.Users(), env, s, ops, r, keep);
  }

  lemma GroupPatchCastable(env: Env, s: GroupPatch.GroupState, ops: seq<PatchOp>,
                           r: Result<GroupPatch.GroupState, PatchError>)
    requires PatchOutcome(GroupPatch.Groups(), env, s, ops, r) && Castable(s.properties)
    ensures r.Ok? ==> Castable(r.value.properties)
  {
    var keep := (x: GroupPatch.GroupState) => Castable(x.properties);
    PatchKeeps(GroupPatch.Groups(), env, s, ops, r, keep);
  }

  /** The user service keeps the flags readable. */
  lemma UsersStay(db: Db, provider: string, id: nat, u: UserService.UserInput, env: Env, ops: seq<PatchOp>,
                  p: Result<Props, PatchError>, now: int)
    requires AllCastable(db)
    requires UserService.IsUserOf(db, provider, id) ==>
               PatchOutcome(UserPatch.Users(), env, db.entities[id].props, ops, p)
    ensures var r := UserService.CreateSpec(db, provider, u, now); r.Ok? ==> AllCastable(r.value)
    ensures var r := UserService.ReplaceSpec(db, provider, id, u, now); r.Ok? ==> AllCastable(r.value)
    ensures var r := UserService.PatchSpec(db, provider, id, ops, now, p); r.Ok? ==> AllCastable(r.value)
    ensures var r := UserService.DeleteSpec(db, provider, id); r.Ok? ==> AllCastable(r.value)
  {
    assert Castable(UserService.ToProperties(u));
    if UserService.IsUserOf(db, provider, id) {
      UserPatchCastable(env, db.entities[id].props, ops, p);
    }
  }

  /** The group service does so too. */
  lemma GroupsStay(db: Db, provider: string, id: nat, g: GroupService.GroupInput, uuid: string -> Option<nat>, env: Env,
                   ops: seq<PatchOp>, ids: seq<nat>, p: Result<GroupPatch.GroupState, PatchError>, now: int)
    requires AllCastable(db)
    requires IsGroupOf(db, provider, id) ==> GroupService.PatchLed(db, id, ops, env, ids, p)
    ensures var r := GroupService.CreateSpec(db, provider, g, uuid, now); r.Ok? ==> AllCastable(r.value)
    ensures var r := GroupService.ReplaceSpec(db, provider, id, g, uuid, now); r.Ok? ==> AllCastable(r.value)
    ensures var r := GroupService.PatchSpec(db, provider, id, ops, now, p); r.Ok? ==> AllCastable(r.value)
    ensures var r := GroupService.DeleteSpec(db, provider, id); r.Ok? ==> AllCastable(r.value)
  {
    assert Castable(GroupService.NameOf(g.displayName));
    if IsGroupOf(db, provider, id) {
      GroupPatchCastable(env, GroupPatch.GroupState(db.entities[id].props, ids), ops, p);
    }
  }
}

/** What a successful user operation leaves behind, and exactly when it succeeds. */
module UserServiceProofs {
  import opened Text
  import opened ScimPatch
  import opened UserPatch
  import opened UserPatchLaws
  import opened GroupStore
  import opened UserService
  import ScimGrammar

  /* ----- who and what ----- */

  ghost predicate OwnUser(db: Db, provider: string, id: nat) {
    id in db.entities && db.entities[id].kind == User
    && exists l :: l in db.links && l.entity == id && l.provider == provider
  }

  /** A user has the external identifier that the pair composes, or the pair has a
      link. */
  ghost predicate Collides(db: Db, provider: string, subject: string) {
    || (exists id :: id in db.entities && db.entities[id].kind == User
                     && db.entities[id].external == "scim:" + provider + ":" + subject)
    || (exists l :: l in db.links && l.provider == provider && l.subject == subject)
  }

  /** One property, unless the text is empty. */
  function TextUnder(key: string, t: string): Props {
    if t == "" then map[] else map[key := ScimPatch.Json.Str(t)]
  }

  predicate ShownAs(u: UserInput, name: string) {
    if u.displayName != "" then name == u.displayName else name == u.formatted
  }

  ghost predicate ReachedAt(u: UserInput, mail: string) {
    if u.emails == [] then mail == "" else Chosen(u.emails, mail)
  }

  /** The user name, the active flag, which is true unless it is given as false, the
      display name or else the formatted name, and the address that counts; an empty name
      or address is left out. */
  ghost predicate PropsOf(u: UserInput, props: Props) {
    exists name, mail ::
      ShownAs(u, name) && ReachedAt(u, mail)
      && props == map["userName" := ScimPatch.Json.Str(u.userName),
                      "active" := ScimPatch.Json.Bool(u.active != Some(false))]
                  + TextUnder("displayName", name) + TextUnder("email", mail)
  }

  lemma BuiltProps(u: UserInput, mail: string)
    requires mail == PrimaryEmail(u.emails)
    ensures ToProperties(u) == map["userName" := ScimPatch.Json.Str(u.userName),
                                   "active" := ScimPatch.Json.Bool(u.active != Some(false))]
                               + TextUnder("displayName", ShownName(u)) + TextUnder("email", mail)
  {
    assert (u.active.Some? ==> u.active.value) <==> u.active != Some(false);
  }

  lemma PropsAre(u: UserInput, props: Props)
    ensures PropsOf(u, props) <==> props == ToProperties(u)
  {
    var mail := PrimaryEmail(u.emails);
    ChosenIs(u.emails, mail);
    BuiltProps(u, mail);
    assert ShownAs(u, ShownName(u)) && ReachedAt(u, mail);
    forall t | ReachedAt(u, t)
      ensures t == mail
    {
      ChosenIs(u.emails, t);
    }
  }

  /** The row of a user alone has changed, and the log has one more entry. */
  ghost predicate Rewritten(db: Db, after: Db, id: nat, props: Props, now: int)
    requires id in db.entities
  {
    var was := db.entities[id];
    && after.entities == db.entities[id := Entity(was.kind, was.external, props, was.builtin, was.created, now)]
    && after.links == db.links && after.relations == db.relations
    && after.log == db.log + [Entry(Changed, id, Some(was.props), Some(props))]
    && after.next == db.next
  }

  /* ----- success, exactly, and its effect ----- */

  /** What the calls report, if the database carries out all their statements. */
  ghost function CreateReport(db: Db, provider: string, u: UserInput): Option<Error> {
    if u.userName == "" then Some(UserNameRequired)
    else if u.externalId == "" then Some(ExternalIdRequired)
    else if Collides(db, provider, u.externalId) then Some(AlreadyExists)
    else None
  }

  ghost function ReplaceReport(db: Db, provider: string, id: nat, u: UserInput): Option<Error> {
    if u.userName == "" then Some(UserNameRequired) else if !OwnUser(db, provider, id) then Some(NotFound) else None
  }

  ghost function PatchReport(db: Db, provider: string, id: nat, p: Result<Props, PatchError>): Option<Error> {
    if !OwnUser(db, provider, id) then Some(NotFound)
    else if p.Err? then Some(BadPatch(p.error))
    else if exists t :: "userName" in p.value && p.value["userName"] == ScimPatch.Json.Str(t) then None
    else Some(UserNameRequired)
  }

  lemma CollidesIs(db: Db, provider: string, subject: string)
    ensures Collides(db, provider, subject) <==> Taken(db, provider, subject)
  {
  }

  /** Creation succeeds exactly if user name and external identifier are given, nothing
      collides, and its five statements are carried out. The only new row is then that of
      the user, it has one link, and the log one more entry. */
  lemma CreateExactly(db: Db, provider: string, u: UserInput, now: int, statements: nat)
    ensures var cost := CreateCost(db, provider, u);
            var (r, after) := Ended(CreateSpec(db, provider, u, now), cost, statements, db);
            && r == (if statements < cost then Some(Internal) else CreateReport(db, provider, u))
            && (r.Some? ==> after == db)
            && (r.None? ==>
                  var id := db.next;
                  && cost == 5 && id in after.entities && PropsOf(u, after.entities[id].props)
                  && after.entities == db.entities[id := Entity(User, "scim:" + provider + ":" + u.externalId,
                                                                after.entities[id].props, false, now, now)]
                  && after.links == db.links + {Link(id, provider, u.externalId)}
                  && after.relations == db.relations
                  && after.log == db.log + [Entry(Created, id, None, Some(after.entities[id].props))]
                  && after.next == id + 1)
  {
    CollidesIs(db, provider, u.externalId);
    PropsAre(u, ToProperties(u));
  }

  /** Replacement succeeds exactly if the user name is given, the user is the provider's
      own, and its five statements are carried out; the properties are then the
      request's. */
  lemma ReplaceExactly(db: Db, provider: string, id: nat, u: UserInput, now: int, statements: nat)
    ensures var cost := ReplaceCost(db, provider, id, u);
            var (r, after) := Ended(ReplaceSpec(db, provider, id, u, now), cost, statements, db);
            && r == (if statements < cost then Some(Internal) else ReplaceReport(db, provider, id, u))
            && (r.Some? ==> after == db)
            && (r.None? ==>
                  && cost == 5 && id in db.entities && id in after.entities && PropsOf(u, after.entities[id].props)
                  && Rewritten(db, after, id, after.entities[id].props, now))
  {
    PropsAre(u, ToProperties(u));
  }

  /** A patch that leads to `p` succeeds exactly if the user is the provider's own, `p`
      is no failure and has a text as user name, and its five statements are carried out;
      the properties are then those of `p`. */
  lemma PatchExactly(db: Db, provider: string, id: nat, ops: seq<PatchOp>, now: int, p: Result<Props, PatchError>,
                     statements: nat)
    requires ops != []
    ensures IsUserOf(db, provider, id) <==> OwnUser(db, provider, id)
    ensures var cost := PatchCost(db, provider, id, ops, p);
            var (r, after) := Ended(PatchSpec(db, provider, id, ops, now, p), cost, statements, db);
            && r == (if statements < cost then Some(Internal) else PatchReport(db, provider, id, p))
            && (r.Some? ==> after == db)
            && (r.None? ==> cost == 5 && id in db.entities && p.Ok? && Rewritten(db, after, id, p.value, now))
  {
    if p.Ok? && HasUserName(p.value) {
      assert p.value["userName"] == ScimPatch.Json.Str(p.value["userName"].text);
    }
  }

  /** Deletion succeeds exactly for the provider's own users, if its six statements are
      carried out. The provider's links go, and with the last link the user and every
      relation with it. */
  lemma DeleteExactly(db: Db, provider: string, id: nat, statements: nat)
    ensures var cost := DeleteCost(db, provider, id);
            var (r, after) := Ended(DeleteSpec(db, provider, id), cost, statements, db);
            && r == (if statements < cost then Some(Internal)
                     else if OwnUser(db, provider, id) then None else Some(NotFound))
            && (r.Some? ==> after == db)
            && (r.None? ==>
                  var shared := exists l :: l in db.links && l.entity == id && l.provider != provider;
                  && cost == 6 && id in db.entities
                  && (forall l :: l in after.links <==> l in db.links && !(l.entity == id && l.provider == provider))
                  && after.entities == (if shared then db.entities else db.entities - {id})
                  && (forall r' :: RelationAt(after.relations, r')
                        == if !shared && (r'.subject == id || r'.target == id) then None
                           else RelationAt(db.relations, r'))
                  && after.log == db.log + [Entry(Deleted, id, Some(db.entities[id].props), None)]
                  && after.next == db.next)
  {
  }
}
